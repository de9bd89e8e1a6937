/**
 The block allocator, file contents and chunked writes of kernel/fs.c and
 kernel/file.c, outside user transactions.  A FileSystem holds the free-block
 bitmap, the blocks and the inodes; the ghost map `owner` names the one place
 that refers to each block, and the ghost set `logged` collects the blocks
 handed to log_write since the operation began.
 */
module Fs {
  import opened Bitmap
  import opened Counting
  import opened FsImage
  import Log

  /** Bits per bitmap block, inodes per block. */
  const BPB: nat := 8192
  const IPB: nat := 16

  /** Block numbers are scanned with a C int. */
  const MAXSIZE: nat := 0x7fff_0000

  // ---- The bitmap against the owners ----

  /** The bits below `size` are exactly the metadata blocks and the blocks that belong to files. */
  ghost predicate BitsOk(bits: Bits, size: nat, nmeta: nat, owner: map<nat, Place>) {
    size <= 8 * |bits| && forall b: nat :: b < size ==> (Taken(bits, b) <==> b < nmeta || b in owner)
  }

  predicate Taken(bits: Bits, b: nat) {
    InRange(bits, b) && Used(bits, b)
  }

  ghost predicate NoFree(bits: Bits, size: nat) {
    forall b: nat :: b < size ==> Taken(bits, b)
  }

  lemma MarkBits(bits: Bits, size: nat, nmeta: nat, owner: map<nat, Place>, b: nat, pl: Place)
    requires BitsOk(bits, size, nmeta, owner) && b < size
    ensures BitsOk(Mark(bits, b), size, nmeta, owner[b := pl])
  {
    forall c: nat | c < size ensures Taken(Mark(bits, b), c) <==> c < nmeta || c in owner[b := pl] {
      MarkUsed(bits, b, c);
      assert Taken(bits, c) <==> c < nmeta || c in owner;
    }
  }

  lemma ClearBits(bits: Bits, size: nat, nmeta: nat, owner: map<nat, Place>, b: nat)
    requires BitsOk(bits, size, nmeta, owner) && nmeta <= b < size
    ensures BitsOk(Clear(bits, b), size, nmeta, owner - {b})
  {
    forall c: nat | c < size ensures Taken(Clear(bits, b), c) <==> c < nmeta || c in owner - {b} {
      ClearUsed(bits, b, c);
      assert Taken(bits, c) <==> c < nmeta || c in owner;
    }
  }

  // ---- Writing byte ranges ----

  /** Part of a block replaced. */
  function Overlay(v: Block, at: nat, data: seq<Byte>): (r: Block)
    requires at + |data| <= |v|
    ensures |r| == |v|
    ensures forall k :: 0 <= k < |v| ==> r[k] == if at <= k < at + |data| then data[k - at] else v[k]
  {
    v[..at] + data + v[at + |data|..]
  }

  /** File i, from contents c, has taken tot bytes of src at off; its size is not yet updated. */
  ghost predicate Written(img: Image, i: nat, c: seq<Byte>, off: nat, src: seq<Byte>, tot: nat)
    requires Shaped(img) && i < |img.inodes|
    requires off <= |c| <= MAXBYTES && tot <= |src| && off + tot <= MAXBYTES
  {
    var r := Splice(c, off, src[..tot]);
    && (forall bn: nat :: bn < MAXFILE && bn * BSIZE < |r| ==> Addr(img, i, bn) != 0)
    && (forall o: nat :: o < |r| ==> ByteAt(img, i, o) == r[o])
  }

  lemma WrittenExtends(img: Image, img': Image, i: nat, c: seq<Byte>, off: nat, src: seq<Byte>, tot: nat)
    requires Shaped(img) && Shaped(img') && i < |img.inodes| && Extends(img, img')
    requires off <= |c| <= MAXBYTES && tot <= |src| && off + tot <= MAXBYTES
    requires Written(img, i, c, off, src, tot)
    ensures Written(img', i, c, off, src, tot)
  {
    var r := Splice(c, off, src[..tot]);
    forall bn: nat | bn < MAXFILE && bn * BSIZE < |r| ensures Addr(img', i, bn) != 0 {
      assert Stays(img, img', i, bn);
    }
    forall o: nat | o < |r| ensures ByteAt(img', i, o) == r[o] {
      assert o / BSIZE * BSIZE < |r|;
      ExtendsBytes(img, img', i, o);
    }
  }

  lemma WrittenStart(img: Image, owner: map<nat, Place>, i: nat, off: nat, src: seq<Byte>)
    requires Valid(img, owner) && i < |img.inodes| && off <= img.inodes[i].size
    ensures Written(img, i, Contents(img, i), off, src, 0)
  {
    var c := Contents(img, i);
    SpliceNothing(c, off, src);
    forall o: nat | o < |c| ensures ByteAt(img, i, o) == c[o] {
      BytesAt(img, i, |c|, o);
    }
  }

  /** With the size updated, the file is the splice. */
  lemma WrittenEnd(img: Image, owner: map<nat, Place>, i: nat, c: seq<Byte>, off: nat, src: seq<Byte>, tot: nat)
    requires Valid(img, owner) && i < |img.inodes| && img.inodes[i].size == |c|
    requires off <= |c| <= MAXBYTES && tot <= |src| && off + tot <= MAXBYTES
    requires Written(img, i, c, off, src, tot)
    ensures var s := Splice(c, off, src[..tot]);
      var r := img.(inodes := img.inodes[i := img.inodes[i].(size := |s|)]);
      && Valid(r, owner) && Contents(r, i) == s
      && (forall j: nat :: j < |img.inodes| && j != i ==> Contents(r, j) == Contents(img, j))
  {
    var s := Splice(c, off, src[..tot]);
    Grow(img, owner, i, |s|);
    ContentsAre(img.(inodes := img.inodes[i := img.inodes[i].(size := |s|)]), i, s);
  }

  /** Copying the next m bytes of src into block (off + tot) / BSIZE. */
  lemma WriteStep(img: Image, owner: map<nat, Place>, i: nat, c: seq<Byte>, off: nat, src: seq<Byte>, tot: nat, m: nat,
                  next: nat)
    requires Valid(img, owner) && i < |img.inodes| && next == tot + m
    requires off <= |c| <= MAXBYTES && tot + m <= |src| && off + tot + m <= MAXBYTES && 0 < m
    requires Written(img, i, c, off, src, tot) && Addr(img, i, (off + tot) / BSIZE) != 0
    requires (off + tot) % BSIZE + m <= BSIZE
    ensures Addr(img, i, (off + tot) / BSIZE) < |img.blocks|
    ensures var a := Addr(img, i, (off + tot) / BSIZE);
      var r := SetBlock(img, a, Overlay(img.blocks[a], (off + tot) % BSIZE, src[tot..tot + m]));
      && Valid(r, owner) && Written(r, i, c, off, src, next)
      && (forall j: nat :: j < |img.inodes| && j != i ==> Contents(r, j) == Contents(img, j))
  {
    var bn, at := (off + tot) / BSIZE, (off + tot) % BSIZE;
    var a := Addr(img, i, bn);
    assert Refers(img, Data(i, bn)) == a;
    var v := Overlay(img.blocks[a], at, src[tot..tot + m]);
    DataBlockWrite(img, owner, i, bn, v);
    var r := SetBlock(img, a, v);
    var s, s' := Splice(c, off, src[..tot]), Splice(c, off, src[..tot + m]);
    forall k: nat | k < MAXFILE && k * BSIZE < |s'| ensures Addr(r, i, k) != 0 {
      BlockCovered(off + tot, m, |s|, |s'|, k);
    }
    forall o: nat | o < |s'| ensures ByteAt(r, i, o) == s'[o] {
      assert o / BSIZE * BSIZE < |s'|;
      BlockCovered(off + tot, m, |s|, |s'|, o / BSIZE);
      assert Addr(img, i, o / BSIZE) != 0;
      ByteStep(c, off, src, tot, m, o, img.blocks[a], ByteAt(img, i, o), ByteAt(r, i, o));
    }
  }

  /** The byte at o after a step, y, from the byte before, x, and the block v written to. */
  lemma ByteStep(c: seq<Byte>, off: nat, src: seq<Byte>, tot: nat, m: nat, o: nat, v: Block, x: Byte, y: Byte)
    requires off <= |c| && tot + m <= |src| && (off + tot) % BSIZE + m <= BSIZE && |v| == BSIZE
    requires o < |Splice(c, off, src[..tot + m])|
    requires o < |Splice(c, off, src[..tot])| ==> x == Splice(c, off, src[..tot])[o]
    requires o / BSIZE == (off + tot) / BSIZE ==> x == v[o % BSIZE]
    requires y == if o / BSIZE == (off + tot) / BSIZE
                  then Overlay(v, (off + tot) % BSIZE, src[tot..tot + m])[o % BSIZE] else x
    ensures y == Splice(c, off, src[..tot + m])[o]
  {
    SameBlock(off + tot, m, o);
    SpliceAt(c, off, src[..tot + m], o);
    if o < |Splice(c, off, src[..tot])| { SpliceAt(c, off, src[..tot], o); }
  }

  /** What the unsigned comparison off + n < off tests. */
  lemma WrapTest(off: nat, n: nat)
    requires off < UINT && n < UINT
    ensures (off + n) % UINT < off <==> off + n >= UINT
  {
  }

  lemma Join(c: seq<Byte>, a: nat, b: nat, d: nat)
    requires a <= b <= d <= |c|
    ensures c[a..b] + c[b..d] == c[a..d]
  {
  }

  /** The bytes p .. p+m of a file, inside one block. */
  lemma ReadStep(img: Image, owner: map<nat, Place>, i: nat, p: nat, m: nat, q: nat)
    requires q == p + m
    requires Valid(img, owner) && i < |img.inodes| && 0 < m && p + m <= img.inodes[i].size && p % BSIZE + m <= BSIZE
    ensures p / BSIZE < MAXFILE && 0 < Addr(img, i, p / BSIZE) < |img.blocks|
    ensures img.blocks[Addr(img, i, p / BSIZE)][p % BSIZE..p % BSIZE + m] == Contents(img, i)[p..q]
  {
    assert p / BSIZE < MAXFILE && p / BSIZE * BSIZE < img.inodes[i].size;
    var a := Addr(img, i, p / BSIZE);
    assert Refers(img, Data(i, p / BSIZE)) == a;
    var b, c := img.blocks[a][p % BSIZE..p % BSIZE + m], Contents(img, i)[p..p + m];
    forall k: nat | k < m ensures b[k] == c[k] {
      SameBlock(p, m, p + k);
      BytesAt(img, i, img.inodes[i].size, p + k);
    }
  }

  /** A block that starts below the new end starts below the old one, or is the block written. */
  lemma BlockCovered(p: nat, m: nat, len: nat, len': nat, k: nat)
    requires p % BSIZE + m <= BSIZE && p <= len && len' == (if p + m > len then p + m else len)
    requires k * BSIZE < len'
    ensures k * BSIZE < len || k == p / BSIZE
  {
  }

  /** Offsets p .. p+m lie in one block, at the same distance from its start. */
  lemma SameBlock(p: nat, m: nat, o: nat)
    requires p % BSIZE + m <= BSIZE
    ensures p <= o < p + m <==> o / BSIZE == p / BSIZE && p % BSIZE <= o % BSIZE < p % BSIZE + m
    ensures o / BSIZE == p / BSIZE ==> o - p == o % BSIZE - p % BSIZE
  {
  }

  // ---- How many blocks a write logs ----

  /** A block number, unless it is 0. */
  function NonZero(b: nat): (r: set<nat>) {
    if b == 0 then {} else {b}
  }

  /** How many blocks the byte range off .. off+n touches. */
  function Span(off: nat, n: nat): (r: nat) {
    (off + n + BSIZE - 1) / BSIZE - off / BSIZE
  }

  /**
   A write of n bytes at off logs each block it touches, a bitmap block for each
   but a partly filled first one, one indirect block and a bitmap block for it.
   */
  function Budget(off: nat, n: nat): (r: int) {
    2 * Span(off, n) + 2 - (if off % BSIZE != 0 then 1 else 0)
  }

  /** The blocks logged since `base`: data blocks, bitmap blocks and at most one indirect block. */
  ghost predicate Tally(base: set<nat>, logged: set<nat>, data: set<nat>, maps: set<nat>, ind: nat, ndata: int, nmaps: int) {
    logged <= base + data + maps + NonZero(ind) && |data| <= ndata && |maps| <= nmaps
  }

  lemma TallyStep(base: set<nat>, logged: set<nat>, data: set<nat>, maps: set<nat>, ind: nat, ndata: int, nmaps: int,
                  logged': set<nat>, addr: nat, more: set<nat>, ind': nat)
    requires Tally(base, logged, data, maps, ind, ndata, nmaps)
    requires logged' <= logged + more + NonZero(addr) + NonZero(ind') && (ind != 0 ==> ind' == ind)
    ensures addr != 0 ==> Tally(base, logged' + {addr}, data + {addr}, maps + more, ind', ndata + 1, nmaps + |more|)
    ensures addr == 0 ==> Tally(base, logged', data, maps + more, ind', ndata, nmaps + |more|)
  {
  }

  lemma TallySize(base: set<nat>, logged: set<nat>, data: set<nat>, maps: set<nat>, ind: nat, ndata: int, nmaps: int)
    requires Tally(base, logged, data, maps, ind, ndata, nmaps)
    ensures |logged - base| <= ndata + nmaps + 1
  {
    SubsetSize(logged - base, data + maps + NonZero(ind));
  }

  /** Bitmap blocks allowed after cnt blocks: none for a partly filled first block, one more for a new indirect block. */
  function MapsAllowed(off: nat, cnt: nat, newInd: bool): (r: int) {
    cnt - (if cnt > 0 && off % BSIZE != 0 then 1 else 0) + (if newInd then 1 else 0)
  }

  /** A partly filled first block exists already. */
  lemma FirstBlock(img: Image, owner: map<nat, Place>, i: nat, off: nat)
    requires Valid(img, owner) && i < |img.inodes| && off <= img.inodes[i].size && off % BSIZE != 0
    ensures off / BSIZE < MAXFILE && Addr(img, i, off / BSIZE) != 0
  {
    assert off / BSIZE * BSIZE < img.inodes[i].size;
  }

  /** Where a round that starts at tot of n bytes ends: at a block boundary or at the end. */
  function NextStop(off: nat, n: nat, tot: nat): (r: nat)
    requires tot < n
    ensures tot < r <= n && (r < n ==> (off + r) % BSIZE == 0)
  {
    if n - tot < BSIZE - (off + tot) % BSIZE then n else tot + BSIZE - (off + tot) % BSIZE
  }

  /** A round touches one more block. */
  lemma SpanStep(off: nat, n: nat, tot: nat)
    requires tot < n && (tot == 0 || (off + tot) % BSIZE == 0)
    ensures Span(off, NextStop(off, n, tot)) == (if tot == 0 then 1 else Span(off, tot) + 1)
  {
  }

  /** The counts after tot of n bytes: cnt blocks written to, nmaps bitmap blocks. */
  ghost predicate Counted(off: nat, n: nat, tot: nat, cnt: nat, nmaps: int, newInd: bool) {
    && cnt <= Span(off, tot) && nmaps <= MapsAllowed(off, cnt, newInd)
    && (tot == 0 <==> cnt == 0)
    && (0 < tot < n ==> (off + tot) % BSIZE == 0)
  }

  lemma CountedStep(off: nat, n: nat, tot: nat, cnt: nat, nmaps: int, newInd: bool,
                    next: nat, cnt': nat, nmaps': int, newInd': bool, had: bool)
    requires Counted(off, n, tot, cnt, nmaps, newInd) && tot < n && (newInd ==> newInd')
    requires next == NextStop(off, n, tot) && cnt' == cnt + 1
    requires nmaps' <= nmaps + (if had then 0 else 1) + (if newInd != newInd' then 1 else 0)
    requires tot == 0 && off % BSIZE != 0 ==> had
    ensures Counted(off, n, next, cnt', nmaps', newInd')
  {
    SpanStep(off, n, tot);
  }

  lemma CountedStop(off: nat, n: nat, tot: nat, cnt: nat, nmaps: int, newInd: bool, nmaps': int, newInd': bool)
    requires Counted(off, n, tot, cnt, nmaps, newInd) && (newInd ==> newInd')
    requires nmaps' <= nmaps + (if newInd != newInd' then 1 else 0)
    ensures Counted(off, n, tot, cnt, nmaps', newInd')
  {
  }

  /** What has been logged since the write began, and for which blocks. */
  datatype Count = Count(base: set<nat>, ind: nat, data: set<nat>, maps: set<nat>, cnt: nat, nmaps: int)

  ghost predicate Within(t: Count, off: nat, n: nat, tot: nat, logged: set<nat>, ind: nat) {
    && Tally(t.base, logged, t.data, t.maps, ind, t.cnt, t.nmaps)
    && Counted(off, n, tot, t.cnt, t.nmaps, ind != t.ind)
    && (t.ind != 0 ==> ind == t.ind)
  }

  ghost function Round(t: Count, addr: nat, more: set<nat>): (r: Count) {
    if addr == 0 then t.(maps := t.maps + more, nmaps := t.nmaps + |more|)
    else t.(data := t.data + {addr}, maps := t.maps + more, cnt := t.cnt + 1, nmaps := t.nmaps + |more|)
  }

  /** A round of the loop stays within its budget; `had` says that its block existed. */
  lemma WithinRound(t: Count, off: nat, n: nat, tot: nat, logged: set<nat>, ind: nat,
                    logged': set<nat>, ind': nat, addr: nat, more: set<nat>, had: bool)
    requires Within(t, off, n, tot, logged, ind) && tot < n && (ind != 0 ==> ind' == ind)
    requires logged' <= logged + more + NonZero(addr) + NonZero(ind')
    requires |more| <= (if addr == 0 || had then 0 else 1) + (if ind' != ind then 1 else 0)
    requires tot == 0 && off % BSIZE != 0 ==> had
    ensures Within(Round(t, addr, more), off, n, if addr == 0 then tot else NextStop(off, n, tot), logged', ind')
  {
    TallyStep(t.base, logged, t.data, t.maps, ind, t.cnt, t.nmaps, logged', addr, more, ind');
    if addr == 0 {
      CountedStop(off, n, tot, t.cnt, t.nmaps, ind != t.ind, t.nmaps + |more|, ind' != t.ind);
    } else {
      CountedStep(off, n, tot, t.cnt, t.nmaps, ind != t.ind,
                  NextStop(off, n, tot), t.cnt + 1, t.nmaps + |more|, ind' != t.ind, had);
    }
  }

  lemma WithinBudget(t: Count, off: nat, n: nat, tot: nat, logged: set<nat>, ind: nat)
    requires Within(t, off, n, tot, logged, ind) && tot <= n
    ensures |logged - t.base| <= Budget(off, n)
  {
    assert Span(off, tot) <= Span(off, n);
    TallySize(t.base, logged, t.data, t.maps, ind, t.cnt, t.nmaps);
  }

  /** What filewrite's chunk size buys. */
  lemma ChunkBudget(off: nat, n: nat)
    requires n <= 3 * BSIZE
    ensures Budget(off, n) + 1 <= Log.MAXOPBLOCKS
  {
  }

  /** What one operation logged: `before` is all but the last block, the inode's. */
  datatype Op = Op(before: set<nat>, logged: set<nat>)

  /** At most MAXOPBLOCKS blocks, and fewer at every log_write, so that log_write finds room. */
  ghost predicate FitsLog(op: Op) {
    |op.before| < Log.MAXOPBLOCKS && |op.logged| <= Log.MAXOPBLOCKS
  }

  lemma OpFits(op: Op, off: nat, n: nat, last: set<nat>)
    requires n <= 3 * BSIZE && op.logged == op.before + last && |last| <= 1
    requires op.before == {} || |op.before - {}| <= Budget(off, n)
    ensures FitsLog(op)
  {
    ChunkBudget(off, n);
    assert op.before - {} == op.before;
  }

  const CHUNK: nat := (Log.MAXOPBLOCKS - 1 - 1 - 2) / 2 * BSIZE

  /** How far a write of n bytes at off gets with blocks to spare: the chunk that would cross MAXFILE is refused as a whole. */
  function Reach(off: nat, n: nat): (r: nat)
    ensures r <= n
  {
    if off + n <= MAXBYTES then n else if off > MAXBYTES then 0 else (MAXBYTES - off) / CHUNK * CHUNK
  }

  lemma WholeChunks(m: nat) returns (q: nat)
    ensures q == m / CHUNK && q * CHUNK <= m < q * CHUNK + CHUNK
  {
    q := m / CHUNK;
  }

  /** k chunks fit into m exactly if there are k whole ones. */
  lemma ChunksFit(m: nat, q: nat, k: nat)
    requires q * CHUNK <= m < q * CHUNK + CHUNK
    ensures k * CHUNK <= m <==> k <= q
  {
  }

  lemma ReachWhole(off: nat, n: nat, q: nat)
    requires off <= MAXBYTES < off + n && q == (MAXBYTES - off) / CHUNK
    ensures Reach(off, n) == q * CHUNK
  {
  }

  /** After k whole chunks: one that fits is within reach, and one that does not is the end of it. */
  lemma ReachChunk(off: nat, n: nat, k: nat, w: nat, n1: nat)
    requires w == k * CHUNK && w < n && off + w <= MAXBYTES && n1 == if n - w > CHUNK then CHUNK else n - w
    ensures if off + w + n1 <= MAXBYTES then w + n1 <= Reach(off, n) else Reach(off, n) == w
  {
    if off + n > MAXBYTES {
      var q := WholeChunks(MAXBYTES - off);
      ReachWhole(off, n, q);
      ChunksFit(MAXBYTES - off, q, k);
      ChunksFit(MAXBYTES - off, q, k + 1);
      if off + w + n1 <= MAXBYTES {
        assert n1 == CHUNK && k + 1 <= q;
      } else {
        assert k == q;
      }
    }
  }

  /** Writing in pieces is writing. */
  lemma SpliceTwice(c: seq<Byte>, off: nat, src: seq<Byte>, w: nat, n: nat, r: int, next: nat)
    requires w + n <= |src| && 0 <= r <= n && next == w + r
    ensures off <= |c| ==>
      Splice(Splice(c, off, src[..w]), off + w, src[w..w + n][..r]) == Splice(c, off, src[..next])
  {
  }

  lemma SpliceNothing(c: seq<Byte>, off: nat, src: seq<Byte>)
    ensures off <= |c| ==> Splice(c, off, src[..0]) == c
  {
  }

  /** c' is c with data put over it at off: as long as both need, data there, and c everywhere else. */
  ghost predicate Overwrites(c: seq<Byte>, off: nat, data: seq<Byte>, c': seq<Byte>) {
    && |c'| == (if |c| < off + |data| then off + |data| else |c|)
    && forall o: nat :: o < |c'| ==> if off <= o < off + |data| then c'[o] == data[o - off] else o < |c| && c'[o] == c[o]
  }

  /** What follows off in c'. */
  lemma TailAfter(c: seq<Byte>, off: nat, data: seq<Byte>, c': seq<Byte>)
    requires off <= |c| && Overwrites(c, off, data, c')
    ensures c'[off..] == data + if off + |data| < |c| then c[off + |data|..] else []
  {
  }

  lemma SpliceOverwrites(c: seq<Byte>, off: nat, data: seq<Byte>)
    requires off <= |c|
    ensures Overwrites(c, off, data, Splice(c, off, data))
  {
  }

  /** Reading back what was written. */
  lemma WriteThenRead(c: seq<Byte>, off: nat, data: seq<Byte>)
    requires off <= |c|
    ensures Splice(c, off, data)[off..off + |data|] == data
  {
  }

  // ---- Truncation ----

  /** The owners left when the first k blocks of file i are gone. */
  ghost function Keep(owner: map<nat, Place>, i: nat, k: nat): (r: map<nat, Place>) {
    map b | b in owner && !(owner[b].Data? && owner[b].i == i && owner[b].bn < k) :: owner[b]
  }

  /** The next block, if there is one, is still held, and freeing it is what remains to be done. */
  lemma KeepStep(img: Image, owner: map<nat, Place>, i: nat, k: nat)
    requires Valid(img, owner) && i < |img.inodes| && k < MAXFILE
    ensures var a := Addr(img, i, k);
      if a == 0 then Keep(owner, i, k + 1) == Keep(owner, i, k)
      else a in Keep(owner, i, k) && Keep(owner, i, k + 1) == Keep(owner, i, k) - {a}
  {
    var a := Addr(img, i, k);
    assert Refers(img, Data(i, k)) == a;
    forall b | b in owner && owner[b] == Data(i, k) ensures b == a {
    }
  }

  /** Last, the indirect block; then only other files' blocks are left. */
  lemma KeepLast(img: Image, owner: map<nat, Place>, i: nat)
    requires Valid(img, owner) && i < |img.inodes|
    ensures var a := IndAddr(img, i);
      if a == 0 then Others(owner, i) == Keep(owner, i, MAXFILE) == Keep(owner, i, NDIRECT)
      else a in Keep(owner, i, MAXFILE) && Others(owner, i) == Keep(owner, i, MAXFILE) - {a}
  {
    var a := IndAddr(img, i);
    assert Refers(img, Ind(i)) == a;
    forall b | b in owner && owner[b] == Ind(i) ensures b == a {
    }
    if a == 0 {
      forall b | b in owner && owner[b].Data? && owner[b].i == i ensures owner[b].bn < NDIRECT {
        assert Refers(img, owner[b]) == b;
      }
    }
  }

  class FileSystem {
    var bitmap: Bits
    var blocks: seq<Block>
    var inodes: seq<Inode>
    ghost var owner: map<nat, Place>
    ghost var logged: set<nat>
    const nmeta: nat
    const bmapstart: nat
    const inodestart: nat

    function BBlock(b: nat): (r: nat) {
      b / BPB + bmapstart
    }

    /** The bitmap's own blocks. */
    ghost function MapBlocks(size: nat): (r: set<nat>) {
      set b: nat | b < size :: BBlock(b)
    }

    function IBlock(i: nat): (r: nat) {
      i / IPB + inodestart
    }

    ghost function Img(): (r: Image)
      reads this
    {
      Image(blocks, inodes)
    }

    ghost predicate Ok()
      reads this
    {
      && Valid(Img(), owner) && BitsOk(bitmap, |blocks|, nmeta, owner)
      && 1 <= nmeta <= |blocks| <= MAXSIZE
      && forall b :: b in owner ==> nmeta <= b
    }

    constructor (bitmap: Bits, blocks: seq<Block>, inodes: seq<Inode>, ghost owner: map<nat, Place>,
                 nmeta: nat, bmapstart: nat, inodestart: nat)
      requires Valid(Image(blocks, inodes), owner) && BitsOk(bitmap, |blocks|, nmeta, owner)
      requires 1 <= nmeta <= |blocks| <= MAXSIZE && forall b :: b in owner ==> nmeta <= b
      ensures Ok() && Img() == Image(blocks, inodes) && this.owner == owner && logged == {}
    {
      this.bitmap, this.blocks, this.inodes, this.owner, logged := bitmap, blocks, inodes, owner, {};
      this.nmeta, this.bmapstart, this.inodestart := nmeta, bmapstart, inodestart;
    }

    // ---- balloc and bfree ----

    /** The first free block, marked and zeroed; 0 exactly if there is none. */
    method Balloc() returns (addr: nat)
      requires Ok()
      modifies `bitmap, `blocks, `logged
      ensures addr == 0 <==> NoFree(old(bitmap), |blocks|)
      ensures addr == 0 ==> bitmap == old(bitmap) && blocks == old(blocks) && logged == old(logged)
      ensures addr != 0 ==>
        && nmeta <= addr < |old(blocks)| && addr !in owner
        && (forall b: nat :: b < addr ==> Taken(old(bitmap), b))
        && bitmap == Mark(old(bitmap), addr) && blocks == old(blocks)[addr := Zeros()]
        && logged == old(logged) + {BBlock(addr), addr}
    {
      var b := 0;
      while b < |blocks|
        invariant forall c: nat :: c < b && c < |blocks| ==> Taken(bitmap, c)
        invariant b % BPB == 0
        invariant bitmap == old(bitmap) && blocks == old(blocks) && logged == old(logged)
        decreases |blocks| - b
      {
        var bi := 0;
        while bi < BPB && b + bi < |blocks|
          invariant 0 <= bi <= BPB
          invariant forall c: nat :: c < b + bi && c < |blocks| ==> Taken(bitmap, c)
          invariant bitmap == old(bitmap) && blocks == old(blocks) && logged == old(logged)
        {
          if !Taken(bitmap, b + bi) {
            addr := b + bi;
            bitmap := Mark(bitmap, addr);
            logged := logged + {b / BPB + bmapstart};
            blocks := blocks[addr := Zeros()];
            logged := logged + {addr};
            assert b / BPB == addr / BPB;
            return;
          }
          bi := bi + 1;
        }
        b := b + BPB;
      }
      addr := 0;
    }

    /** Clears the bit of a block in use; ok is false where the kernel panics. */
    method Bfree(b: nat) returns (ok: bool)
      requires b < 8 * |bitmap|
      modifies `bitmap, `logged
      ensures ok <==> Taken(old(bitmap), b)
      ensures ok ==> bitmap == Clear(old(bitmap), b) && logged == old(logged) + {BBlock(b)}
      ensures !ok ==> bitmap == old(bitmap) && logged == old(logged)
    {
      if !Used(bitmap, b) {
        return false;
      }
      bitmap := Clear(bitmap, b);
      logged := logged + {BBlock(b)};
      return true;
    }

    // ---- bmap ----

    /** addrs[k], allocating a block for it if it is 0. */
    method Slot(i: nat, k: nat) returns (addr: nat)
      requires Ok() && i < |inodes| && k <= NDIRECT
      modifies this
      ensures Ok() && Extends(old(Img()), Img()) && inodes[i].addrs[k] == addr
      ensures addr == 0 ==> NoFree(bitmap, |blocks|)
      ensures addr == 0 || old(inodes[i].addrs[k]) != 0 ==>
        Img() == old(Img()) && bitmap == old(bitmap) && owner == old(owner) && logged == old(logged)
      ensures addr != 0 && old(inodes[i].addrs[k]) == 0 ==> logged == old(logged) + {BBlock(addr), addr}
      ensures forall q: nat :: q <= NDIRECT && q != k ==> inodes[i].addrs[q] == old(inodes[i].addrs[q])
    {
      addr := inodes[i].addrs[k];
      if addr == 0 {
        addr := Balloc();
        if addr == 0 {
          return;
        }
        AllocSlot(old(Img()), owner, i, k, addr);
        MarkBits(old(bitmap), |blocks|, nmeta, owner, addr, SlotPlace(i, k));
        inodes := inodes[i := inodes[i].(addrs := inodes[i].addrs[k := addr])];
        assert Img() == SetAddr(SetBlock(old(Img()), addr, Zeros()), i, k, addr);
        owner := owner[addr := SlotPlace(i, k)];
      }
    }

    /** The block for word bn of the indirect block, allocating it if it is 0. */
    method IndirectWord(i: nat, bn: nat) returns (addr: nat)
      requires Ok() && i < |inodes| && NDIRECT <= bn < MAXFILE && IndAddr(Img(), i) != 0
      modifies this
      ensures Ok() && Extends(old(Img()), Img()) && Addr(Img(), i, bn) == addr && inodes == old(inodes)
      ensures addr == 0 ==> NoFree(bitmap, |blocks|)
      ensures addr == 0 || Addr(old(Img()), i, bn) != 0 ==>
        Img() == old(Img()) && bitmap == old(bitmap) && owner == old(owner) && logged == old(logged)
      ensures addr != 0 && Addr(old(Img()), i, bn) == 0 ==>
        logged == old(logged) + {BBlock(addr), addr, IndAddr(Img(), i)}
    {
      var ind := inodes[i].addrs[NDIRECT];
      assert Refers(Img(), Ind(i)) == ind;
      addr := Word(blocks[ind], bn - NDIRECT);
      if addr == 0 {
        addr := Balloc();
        if addr != 0 {
          AllocWord(old(Img()), owner, i, bn, addr);
          MarkBits(old(bitmap), |blocks|, nmeta, owner, addr, Data(i, bn));
          blocks := blocks[ind := PutWord(blocks[ind], bn - NDIRECT, addr)];
          logged := logged + {ind};
          owner := owner[addr := Data(i, bn)];
        }
      }
    }

    /** The block that holds block bn of file i, allocated if there was none; 0 if out of space. */
    method Bmap(i: nat, bn: nat) returns (addr: nat, ghost maps: set<nat>)
      requires Ok() && i < |inodes| && bn < MAXFILE
      modifies this
      ensures Ok() && Extends(old(Img()), Img()) && Addr(Img(), i, bn) == addr
      ensures addr == 0 ==> NoFree(bitmap, |blocks|)
      ensures Addr(old(Img()), i, bn) != 0 ==>
        Img() == old(Img()) && bitmap == old(bitmap) && owner == old(owner) && logged == old(logged)
      ensures IndAddr(old(Img()), i) != 0 ==> IndAddr(Img(), i) == IndAddr(old(Img()), i)
      ensures logged <= old(logged) + maps + NonZero(addr) + NonZero(IndAddr(Img(), i))
      ensures |maps| <= (if addr == 0 || Addr(old(Img()), i, bn) != 0 then 0 else 1)
                      + (if IndAddr(Img(), i) != IndAddr(old(Img()), i) then 1 else 0)
    {
      maps := {};
      if bn < NDIRECT {
        addr := Slot(i, bn);
        if addr != 0 && Addr(old(Img()), i, bn) == 0 {
          maps := {BBlock(addr)};
        }
        return;
      }
      var ind := Slot(i, NDIRECT);
      if ind == 0 {
        return 0, {};
      }
      if old(inodes[i].addrs[NDIRECT]) == 0 {
        maps := {BBlock(ind)};
      }
      ghost var mid := Img();
      assert Stays(old(Img()), mid, i, bn);
      addr := IndirectWord(i, bn);
      if addr != 0 && Addr(mid, i, bn) == 0 {
        maps := maps + {BBlock(addr)};
      }
      ExtendsTwice(old(Img()), mid, Img());
    }

    // ---- readi and writei ----

    /**
     A slice of the file, cut at its end; nothing changes.  `room` is how many bytes
     the destination takes: a copy that goes further fails, and the result is -1.
     */
    method Readi(i: nat, off: nat, n: nat, room: nat) returns (r: int, out: seq<Byte>)
      requires Ok() && i < |inodes| && off < UINT && n < UINT
      modifies this
      ensures Img() == old(Img()) && bitmap == old(bitmap) && owner == old(owner) && logged == old(logged)
      ensures off > inodes[i].size || off + n >= UINT ==> r == 0 && out == []
      ensures off <= inodes[i].size && off + n < UINT ==>
        var k := if n <= inodes[i].size - off then n else inodes[i].size - off;
        && r == (if k <= room then k else -1)
        && |out| <= room && out <= Contents(Img(), i)[off..off + k] && (r >= 0 ==> out == Contents(Img(), i)[off..off + k])
    {
      WrapTest(off, n);
      if off > inodes[i].size || (off + n) % UINT < off {
        return 0, [];
      }
      var n1 := if off + n > inodes[i].size then inodes[i].size - off else n;
      ghost var c := Contents(Img(), i);
      out := [];
      var p, end := off, off + n1;
      while p < end
        invariant off <= p <= end && out == c[off..p] && p - off <= room
        invariant Img() == old(Img()) && bitmap == old(bitmap) && owner == old(owner) && logged == old(logged)
      {
        var m := if end - p < BSIZE - p % BSIZE then end - p else BSIZE - p % BSIZE;
        var q := p + m;
        ReadStep(Img(), owner, i, p, m, q);
        var addr, _ := Bmap(i, p / BSIZE);
        if q - off > room {
          return -1, out;
        }
        out := out + blocks[addr][p % BSIZE..p % BSIZE + m];
        Join(c, off, p, q);
        p := q;
      }
      r := n1;
    }

    /** One block's worth of copying in and logging. */
    method WriteBlock(addr: nat, at: nat, data: seq<Byte>)
      requires addr < |blocks| && at + |data| <= |blocks[addr]|
      modifies `blocks, `logged
      ensures blocks == old(blocks)[addr := Overlay(old(blocks)[addr], at, data)]
      ensures logged == old(logged) + {addr}
    {
      blocks := blocks[addr := Overlay(blocks[addr], at, data)];
      logged := logged + {addr};
    }

    /** Finds or allocates the next block and copies into it; next == tot if out of space. */
    method CopyNext(i: nat, off: nat, src: seq<Byte>, tot: nat, ghost c: seq<Byte>)
      returns (next: nat, ghost addr: nat, ghost more: set<nat>)
      requires Ok() && i < |inodes| && tot < |src| && off <= |c| <= MAXBYTES && off + |src| <= MAXBYTES
      requires Written(Img(), i, c, off, src, tot)
      modifies this
      ensures Ok() && |inodes| == |old(inodes)| && inodes[i].size == old(inodes[i].size)
      ensures next == if addr == 0 then tot else NextStop(off, |src|, tot)
      ensures Written(Img(), i, c, off, src, next)
      ensures addr == 0 ==> NoFree(bitmap, |blocks|)
      ensures forall j: nat :: j < |inodes| && j != i ==> Contents(Img(), j) == Contents(old(Img()), j)
      ensures IndAddr(old(Img()), i) != 0 ==> IndAddr(Img(), i) == IndAddr(old(Img()), i)
      ensures logged <= old(logged) + more + NonZero(addr) + NonZero(IndAddr(Img(), i))
      ensures |more| <= (if addr == 0 || Addr(old(Img()), i, (off + tot) / BSIZE) != 0 then 0 else 1)
                      + (if IndAddr(Img(), i) != IndAddr(old(Img()), i) then 1 else 0)
    {
      var p := off + tot;
      var a, mr := Bmap(i, p / BSIZE);
      addr, more, next := a, mr, tot;
      ghost var mid := Img();
      WrittenExtends(old(Img()), mid, i, c, off, src, tot);
      forall j: nat | j < |inodes| ensures Contents(mid, j) == Contents(old(Img()), j) {
        ExtendsContents(old(Img()), mid, j);
      }
      if a == 0 {
        return;
      }
      var m := if |src| - tot < BSIZE - p % BSIZE then |src| - tot else BSIZE - p % BSIZE;
      next := tot + m;
      WriteStep(mid, owner, i, c, off, src, tot, m, next);
      WriteBlock(a, p % BSIZE, src[tot..tot + m]);
    }

    /** One round of writei's loop, with the count of what it logs. */
    method WriteNext(i: nat, off: nat, src: seq<Byte>, tot: nat, ghost c: seq<Byte>, ghost t: Count)
      returns (next: nat, ghost t': Count)
      requires Ok() && i < |inodes| && tot < |src| && off <= |c| <= MAXBYTES && off + |src| <= MAXBYTES
      requires Written(Img(), i, c, off, src, tot)
      requires Within(t, off, |src|, tot, logged, IndAddr(Img(), i))
      requires tot == 0 && off % BSIZE != 0 ==> Addr(Img(), i, off / BSIZE) != 0
      modifies this
      ensures Ok() && |inodes| == |old(inodes)| && inodes[i].size == old(inodes[i].size)
      ensures tot <= next <= |src| && (next == tot ==> NoFree(bitmap, |blocks|))
      ensures Written(Img(), i, c, off, src, next)
      ensures forall j: nat :: j < |inodes| && j != i ==> Contents(Img(), j) == Contents(old(Img()), j)
      ensures t'.base == t.base && Within(t', off, |src|, next, logged, IndAddr(Img(), i))
    {
      ghost var addr, more;
      next, addr, more := CopyNext(i, off, src, tot, c);
      WithinRound(t, off, |src|, tot, old(logged), IndAddr(old(Img()), i), logged, IndAddr(Img(), i), addr, more,
                  Addr(old(Img()), i, (off + tot) / BSIZE) != 0);
      t' := Round(t, addr, more);
    }

    /** writei's loop. */
    method WriteAll(i: nat, off: nat, src: seq<Byte>, ghost c: seq<Byte>) returns (tot: nat)
      requires Ok() && i < |inodes| && off + |src| <= MAXBYTES && off <= |c| == inodes[i].size
      requires c == Contents(Img(), i)
      modifies this
      ensures Ok() && |inodes| == |old(inodes)| && inodes[i].size == |c|
      ensures tot <= |src| && Written(Img(), i, c, off, src, tot) && (tot < |src| ==> NoFree(bitmap, |blocks|))
      ensures forall j: nat :: j < |inodes| && j != i ==> Contents(Img(), j) == Contents(old(Img()), j)
      ensures |logged - old(logged)| <= Budget(off, |src|)
    {
      ghost var img0 := Img();
      ghost var t := Count(logged, IndAddr(img0, i), {}, {}, 0, 0);
      if off % BSIZE != 0 {
        FirstBlock(img0, owner, i, off);
      }
      tot := 0;
      WrittenStart(img0, owner, i, off, src);
      while tot < |src|
        invariant tot <= |src| && Ok() && |inodes| == |img0.inodes| && inodes[i].size == |c|
        invariant Written(Img(), i, c, off, src, tot)
        invariant forall j: nat :: j < |inodes| && j != i ==> Contents(Img(), j) == Contents(img0, j)
        invariant t.base == old(logged) && Within(t, off, |src|, tot, logged, IndAddr(Img(), i))
        invariant tot == 0 && off % BSIZE != 0 ==> Addr(Img(), i, off / BSIZE) != 0
      {
        var next, t' := WriteNext(i, off, src, tot, c, t);
        t := t';
        if next == tot {
          break;
        }
        tot := next;
      }
      WithinBudget(t, off, |src|, tot, logged, IndAddr(Img(), i));
    }

    /**
     Splices src into file i at off: all of it, or, only when no block is free, a
     prefix.  No other file changes.  `before` is what was logged ahead of the
     inode block, the last block logged.
     */
    method Writei(i: nat, off: nat, src: seq<Byte>) returns (r: int, ghost before: set<nat>)
      requires Ok() && i < |inodes| && off < UINT && |src| < UINT
      modifies this
      ensures Ok() && |inodes| == |old(inodes)|
      ensures r == -1 <==> off > old(inodes[i].size) || off + |src| > MAXBYTES
      ensures r == -1 ==>
        Img() == old(Img()) && bitmap == old(bitmap) && owner == old(owner) && logged == before == old(logged)
      ensures r != -1 ==>
        && 0 <= r <= |src| && (r < |src| ==> NoFree(bitmap, |blocks|))
        && Contents(Img(), i) == Splice(Contents(old(Img()), i), off, src[..r])
        && Overwrites(Contents(old(Img()), i), off, src[..r], Contents(Img(), i))
        && (forall j: nat :: j < |inodes| && j != i ==> Contents(Img(), j) == Contents(old(Img()), j))
        && logged == before + {IBlock(i)} && |before - old(logged)| <= Budget(off, |src|)
    {
      before := logged;
      WrapTest(off, |src|);
      if off > inodes[i].size || (off + |src|) % UINT < off {
        return -1, before;
      }
      if off + |src| > MAXBYTES {
        return -1, before;
      }
      ghost var c := Contents(Img(), i);
      var tot := WriteAll(i, off, src, c);
      ghost var mid := Img();
      WrittenEnd(mid, owner, i, c, off, src, tot);
      SpliceOverwrites(c, off, src[..tot]);
      if off + tot > inodes[i].size {
        inodes := inodes[i := inodes[i].(size := off + tot)];
      }
      assert inodes == mid.inodes[i := mid.inodes[i].(size := |Splice(c, off, src[..tot])|)];
      before := logged;
      logged := logged + {IBlock(i)};
      r := tot;
    }

    /**
     Writes and reads the rest of the file: whatever `n` asks for past the end, what comes back is what
     was written, followed by what the file already held after it.
     */
    method WriteThenReadAll(i: nat, off: nat, src: seq<Byte>, n: nat, room: nat) returns (r: int, out: seq<Byte>)
      requires Ok() && i < |inodes| && off < UINT && |src| < UINT && off + n < UINT && n <= room
      modifies this
      ensures Ok() && |inodes| == |old(inodes)| && -1 <= r <= |src|
      ensures r == -1 <==> off > old(inodes[i].size) || off + |src| > MAXBYTES
      ensures r >= 0 && off + n >= inodes[i].size ==>
        out == src[..r] + if off + r < old(inodes[i].size) then Contents(old(Img()), i)[off + r..] else []
    {
      out := [];
      ghost var before;
      r, before := Writei(i, off, src);
      if r >= 0 {
        ghost var img := Img();
        var got;
        got, out := Readi(i, off, n, room);
        TailAfter(Contents(old(Img()), i), off, src[..r], Contents(img, i));
      }
    }

    // ---- itrunc ----

    /** Frees the block at bn of file i, if there is one. */
    method FreeAt(i: nat, bn: nat, a: nat, ghost img: Image) returns (ok: bool)
      requires Valid(img, owner) && i < |img.inodes| && bn < MAXFILE && a == Addr(img, i, bn)
      requires BitsOk(bitmap, |img.blocks|, nmeta, Keep(owner, i, bn)) && forall b :: b in owner ==> nmeta <= b
      modifies `bitmap, `logged
      ensures ok && BitsOk(bitmap, |img.blocks|, nmeta, Keep(owner, i, bn + 1))
      ensures logged <= old(logged) + MapBlocks(|img.blocks|)
    {
      KeepStep(img, owner, i, bn);
      ok := true;
      if a != 0 {
        assert Refers(img, Data(i, bn)) == a && Taken(bitmap, a);
        ClearBits(bitmap, |img.blocks|, nmeta, Keep(owner, i, bn), a);
        ok := Bfree(a);
      }
    }

    /** Frees and forgets the direct blocks. */
    method TruncDirect(i: nat) returns (ok: bool)
      requires Ok() && i < |inodes|
      modifies `bitmap, `inodes, `logged
      ensures ok && BitsOk(bitmap, |blocks|, nmeta, Keep(owner, i, NDIRECT))
      ensures inodes == old(inodes)[i := old(inodes)[i].(addrs := seq(NDIRECT, _ => 0) + [old(inodes)[i].addrs[NDIRECT]])]
      ensures logged <= old(logged) + MapBlocks(|blocks|)
    {
      ghost var img, was := Img(), inodes[i];
      ok := true;
      assert Keep(owner, i, 0) == owner;
      assert seq(0, _ => 0) + was.addrs[0..] == was.addrs;
      for k := 0 to NDIRECT
        invariant ok && BitsOk(bitmap, |blocks|, nmeta, Keep(owner, i, k))
        invariant inodes == img.inodes[i := was.(addrs := seq(k, _ => 0) + was.addrs[k..])]
        invariant logged <= old(logged) + MapBlocks(|blocks|)
      {
        var a := inodes[i].addrs[k];
        var freed := FreeAt(i, k, a, img);
        ok := ok && freed;
        inodes := inodes[i := inodes[i].(addrs := inodes[i].addrs[k := 0])];
        assert (seq(k, _ => 0) + was.addrs[k..])[k := 0] == seq(k + 1, _ => 0) + was.addrs[k + 1..];
      }
      assert was.addrs[NDIRECT..] == [was.addrs[NDIRECT]];
    }

    /** Frees the blocks the indirect block lists, then the indirect block. */
    method TruncIndirect(i: nat, a: nat, ghost img: Image) returns (ok: bool)
      requires Valid(img, owner) && i < |img.inodes| && a == IndAddr(img, i) != 0 && blocks == img.blocks
      requires BitsOk(bitmap, |blocks|, nmeta, Keep(owner, i, NDIRECT)) && forall b :: b in owner ==> nmeta <= b
      modifies `bitmap, `logged
      ensures ok && BitsOk(bitmap, |blocks|, nmeta, Others(owner, i))
      ensures logged <= old(logged) + MapBlocks(|blocks|)
    {
      assert Refers(img, Ind(i)) == a;
      ok := true;
      for j := 0 to NINDIRECT
        invariant ok && BitsOk(bitmap, |blocks|, nmeta, Keep(owner, i, NDIRECT + j))
        invariant logged <= old(logged) + MapBlocks(|blocks|)
      {
        var w := Word(blocks[a], j);
        var freed := FreeAt(i, NDIRECT + j, w, img);
        ok := ok && freed;
      }
      KeepLast(img, owner, i);
      assert Taken(bitmap, a);
      ClearBits(bitmap, |blocks|, nmeta, Keep(owner, i, MAXFILE), a);
      var freed := Bfree(a);
      ok := ok && freed;
    }

    /**
     Empties file i.  Exactly its blocks become free, each freed once, so the
     panic for freeing a free block (ok false) is not reached.
     */
    method Itrunc(i: nat) returns (ok: bool)
      requires Ok() && i < |inodes|
      modifies this
      ensures ok && Ok() && owner == Others(old(owner), i)
      ensures forall b: nat :: b < |blocks| ==> (Taken(bitmap, b) <==> Taken(old(bitmap), b) && !(b in old(owner) && old(owner)[b].i == i))
      ensures |inodes| == |old(inodes)| && Contents(Img(), i) == [] && forall k :: 0 <= k <= NDIRECT ==> inodes[i].addrs[k] == 0
      ensures forall j: nat :: j < |inodes| && j != i ==> Contents(Img(), j) == Contents(old(Img()), j)
      ensures logged <= old(logged) + MapBlocks(|blocks|) + {IBlock(i)}
    {
      ghost var img := Img();
      ok := TruncDirect(i);
      var a := inodes[i].addrs[NDIRECT];
      KeepLast(img, owner, i);
      if a != 0 {
        var freed := TruncIndirect(i, a, img);
        ok := ok && freed;
        inodes := inodes[i := inodes[i].(addrs := inodes[i].addrs[NDIRECT := 0])];
      }
      inodes := inodes[i := inodes[i].(size := 0)];
      Truncate(img, owner, i, inodes[i].addrs);
      assert inodes == img.inodes[i := Inode(inodes[i].addrs, 0)];
      logged := logged + {IBlock(i)};
      owner := Others(owner, i);
    }

    // ---- filewrite ----

    /** One operation of filewrite: begin_op, writei, end_op. */
    method WriteOp(i: nat, off: nat, src: seq<Byte>) returns (r: int, ghost op: Op)
      requires Ok() && i < |inodes| && off < UINT && |src| <= 3 * BSIZE
      modifies this
      ensures Ok() && |inodes| == |old(inodes)| && FitsLog(op) && op.logged == logged
      ensures r == -1 <==> off > old(inodes[i].size) || off + |src| > MAXBYTES
      ensures r == -1 ==> Img() == old(Img())
      ensures r != -1 ==>
        && 0 <= r <= |src| && (r < |src| ==> NoFree(bitmap, |blocks|))
        && Contents(Img(), i) == Splice(Contents(old(Img()), i), off, src[..r])
        && (forall j: nat :: j < |inodes| && j != i ==> Contents(Img(), j) == Contents(old(Img()), j))
    {
      logged := {};
      ghost var before;
      r, before := Writei(i, off, src);
      op := Op(before, logged);
      OpFits(op, off, |src|, if r == -1 then {} else {IBlock(i)});
    }

    /** The next operation of filewrite, after w bytes of src. */
    method WriteChunk(i: nat, off: nat, src: seq<Byte>, w: nat, n1: nat, ghost c: seq<Byte>)
      returns (r: int, next: nat, ghost op: Op)
      requires Ok() && i < |inodes| && off < UINT && w + n1 <= |src| && n1 <= 3 * BSIZE && off + w < UINT
      requires if off <= |c| then Contents(Img(), i) == Splice(c, off, src[..w]) else w == 0 && inodes[i].size == |c|
      modifies this
      ensures Ok() && |inodes| == |old(inodes)| && FitsLog(op) && op.logged == logged
      ensures r == -1 <==> off > |c| || off + w + n1 > MAXBYTES
      ensures r == -1 ==> next == w && Img() == old(Img())
      ensures r != -1 ==> 0 <= r <= n1 && next == w + r && Contents(Img(), i) == Splice(c, off, src[..next])
      ensures 0 <= r < n1 ==> NoFree(bitmap, |blocks|)
      ensures forall j: nat :: j < |inodes| && j != i ==> Contents(Img(), j) == Contents(old(Img()), j)
    {
      r, op := WriteOp(i, off + w, src[w..w + n1]);
      next := w;
      if r > 0 {
        next := w + r;
      }
      if r != -1 {
        SpliceTwice(c, off, src, w, n1, r, next);
      }
    }

    /** The round of filewrite's loop after k whole chunks, which are w bytes; `stop` if writei did not write all it was asked to. */
    method WriteRound(i: nat, off: nat, src: seq<Byte>, w: nat, ghost k: nat, ghost c: seq<Byte>)
      returns (stop: bool, next: nat, ghost op: Op)
      requires Ok() && i < |inodes| && off < UINT && |src| < 0x8000_0000 && w < |src| && w == k * CHUNK
      requires if off <= |c| then Contents(Img(), i) == Splice(c, off, src[..w]) else w == 0 && inodes[i].size == |c|
      requires off <= |c| ==> off + w <= MAXBYTES
      modifies this
      ensures Ok() && |inodes| == |old(inodes)| && FitsLog(op) && w <= next <= |src|
      ensures if off > |c| then stop && next == w && Img() == old(Img()) else Contents(Img(), i) == Splice(c, off, src[..next])
      ensures forall j: nat :: j < |inodes| && j != i ==> Contents(Img(), j) == Contents(old(Img()), j)
      ensures off <= |c| ==> off + next <= MAXBYTES && next <= Reach(off, |src|)
      ensures !stop ==> next == |src| || next == (k + 1) * CHUNK
      ensures stop ==> next < |src| && (off <= |c| && next < Reach(off, |src|) ==> NoFree(bitmap, |blocks|))
    {
      var n1 := if |src| - w > CHUNK then CHUNK else |src| - w;
      if off <= |c| { ReachChunk(off, |src|, k, w, n1); }
      var r;
      r, next, op := WriteChunk(i, off, src, w, n1, c);
      stop := r != n1;
    }

    /**
     Writes src at the file's offset in operations of at most 3 blocks.  Returns
     |src| if all was written and -1 if not; either way exactly the `adv` bytes
     the offset moved over are in the file, and they are as many as MAXFILE allows
     unless the disk is full.  Every operation fits the log's reservation.
     */
    method Filewrite(i: nat, off: nat, src: seq<Byte>) returns (ret: int, adv: nat, ghost ops: seq<Op>)
      requires Ok() && i < |inodes| && off < UINT && |src| < 0x8000_0000
      modifies this
      ensures Ok() && |inodes| == |old(inodes)|
      ensures adv <= |src| && ret == (if adv == |src| then |src| else -1)
      ensures if off > old(inodes[i].size) then adv == 0 && Img() == old(Img())
              else Overwrites(Contents(old(Img()), i), off, src[..adv], Contents(Img(), i))
      ensures forall j: nat :: j < |inodes| && j != i ==> Contents(Img(), j) == Contents(old(Img()), j)
      ensures off <= old(inodes[i].size) ==> adv <= Reach(off, |src|) && (adv < Reach(off, |src|) ==> NoFree(bitmap, |blocks|))
      ensures forall k :: 0 <= k < |ops| ==> FitsLog(ops[k])
    {
      ghost var c := Contents(Img(), i);
      var w, stop := 0, false;
      ops := [];
      SpliceNothing(c, off, src);
      while w < |src| && !stop
        invariant w <= |src| && Ok() && |inodes| == |old(inodes)|
        invariant if off > |c| then w == 0 && Img() == old(Img()) else Contents(Img(), i) == Splice(c, off, src[..w])
        invariant off <= |c| ==> off + w <= MAXBYTES && w <= Reach(off, |src|)
        invariant stop || w == |src| || w == |ops| * CHUNK
        invariant stop ==> w < |src| && (off <= |c| && w < Reach(off, |src|) ==> NoFree(bitmap, |blocks|))
        invariant forall j: nat :: j < |inodes| && j != i ==> Contents(Img(), j) == Contents(old(Img()), j)
        invariant forall k :: 0 <= k < |ops| ==> FitsLog(ops[k])
        decreases |src| - w, if stop then 0 else 1
      {
        ghost var op;
        stop, w, op := WriteRound(i, off, src, w, |ops|, c);
        ops := ops + [op];
      }
      if off <= |c| {
        SpliceOverwrites(c, off, src[..w]);
      }
      ret, adv := if w == |src| then |src| else -1, w;
    }
  }
}
