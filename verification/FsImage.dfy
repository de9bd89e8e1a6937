/**
 Files as kernel/fs.c lays them out: an inode lists NDIRECT blocks and one
 indirect block, whose 32-bit little-endian words list the rest.  This module
 gives the meaning of such an image, one flat byte sequence per inode, and says
 which block belongs to which place of which inode.
 */
module FsImage {

  const BSIZE: nat := 1024
  const NDIRECT: nat := 12
  const NINDIRECT: nat := 256
  const MAXFILE: nat := NDIRECT + NINDIRECT
  const MAXBYTES: nat := MAXFILE * BSIZE

  type Byte = b: int | 0 <= b < 256
  type Block = seq<Byte>

  const UINT: nat := 0x1_0000_0000

  function Zeros(): (b: Block)
    ensures |b| == BSIZE && forall k :: 0 <= k < BSIZE ==> b[k] == 0
  {
    seq(BSIZE, _ => 0)
  }

  // ---- Words of an indirect block ----

  /** ((uint *)bytes)[j] */
  function Word(b: Block, j: nat): (w: nat)
    requires |b| == BSIZE && j < NINDIRECT
    ensures w < UINT
  {
    (b[4 * j] as int) + 0x100 * (b[4 * j + 1] as int) + 0x1_0000 * (b[4 * j + 2] as int) + 0x100_0000 * (b[4 * j + 3] as int)
  }

  function PutWord(b: Block, j: nat, w: nat): (r: Block)
    requires |b| == BSIZE && j < NINDIRECT && w < UINT
    ensures |r| == BSIZE
  {
    b[4 * j := w % 0x100][4 * j + 1 := w / 0x100 % 0x100][4 * j + 2 := w / 0x1_0000 % 0x100][4 * j + 3 := w / 0x100_0000]
  }

  lemma WordPut(b: Block, j: nat, w: nat, k: nat)
    requires |b| == BSIZE && j < NINDIRECT && w < UINT && k < NINDIRECT
    ensures Word(PutWord(b, j, w), k) == if k == j then w else Word(b, k)
  {
    if k == j {
      BytesOf(w);
    }
  }

  lemma BytesOf(w: nat)
    requires w < UINT
    ensures w % 0x100 + 0x100 * (w / 0x100 % 0x100) + 0x1_0000 * (w / 0x1_0000 % 0x100) + 0x100_0000 * (w / 0x100_0000) == w
  {
  }

  lemma WordZero(j: nat)
    requires j < NINDIRECT
    ensures Word(Zeros(), j) == 0
  {
  }

  // ---- Images ----

  datatype Inode = Inode(addrs: seq<nat>, size: nat)

  datatype Image = Image(blocks: seq<Block>, inodes: seq<Inode>)

  /** Lengths are what the structures say. */
  ghost predicate Shaped(img: Image) {
    && (forall b :: 0 <= b < |img.blocks| ==> |img.blocks[b]| == BSIZE)
    && (forall i :: 0 <= i < |img.inodes| ==> |img.inodes[i].addrs| == NDIRECT + 1)
  }

  /** The indirect block of inode i, 0 if none. */
  function IndAddr(img: Image, i: nat): (a: nat)
    requires Shaped(img) && i < |img.inodes|
  {
    img.inodes[i].addrs[NDIRECT]
  }

  /** The block that holds block number bn of inode i, 0 if none. */
  function Addr(img: Image, i: nat, bn: nat): (a: nat)
    requires Shaped(img) && i < |img.inodes| && bn < MAXFILE
  {
    if bn < NDIRECT then img.inodes[i].addrs[bn]
    else if IndAddr(img, i) == 0 || IndAddr(img, i) >= |img.blocks| then 0
    else Word(img.blocks[IndAddr(img, i)], bn - NDIRECT)
  }

  /** A place that can refer to a block. */
  datatype Place = Data(i: nat, bn: nat) | Ind(i: nat)

  ghost predicate IsPlace(img: Image, pl: Place) {
    pl.i < |img.inodes| && (pl.Data? ==> pl.bn < MAXFILE)
  }

  ghost function Refers(img: Image, pl: Place): (a: nat)
    requires Shaped(img) && IsPlace(img, pl)
  {
    match pl case Data(i, bn) => Addr(img, i, bn) case Ind(i) => IndAddr(img, i)
  }

  /** `owner` names the one place that refers to each block in use by a file. */
  ghost predicate Owned(img: Image, owner: map<nat, Place>)
    requires Shaped(img)
  {
    && (forall pl :: IsPlace(img, pl) && Refers(img, pl) != 0 ==>
          Refers(img, pl) in owner && owner[Refers(img, pl)] == pl)
    && (forall b :: b in owner ==> 0 < b < |img.blocks| && b < UINT && IsPlace(img, owner[b]) && Refers(img, owner[b]) == b)
  }

  /** A file's bytes below its size are in blocks it has. */
  ghost predicate NoHoles(img: Image)
    requires Shaped(img)
  {
    forall i: nat, bn: nat :: i < |img.inodes| && bn < MAXFILE && bn * BSIZE < img.inodes[i].size ==> Addr(img, i, bn) != 0
  }

  ghost predicate Valid(img: Image, owner: map<nat, Place>) {
    && Shaped(img) && Owned(img, owner) && NoHoles(img)
    && forall i :: 0 <= i < |img.inodes| ==> img.inodes[i].size <= MAXBYTES
  }

  // ---- Contents ----

  /** Byte o of inode i; meaningful where the block exists. */
  function ByteAt(img: Image, i: nat, o: nat): (x: Byte)
    requires Shaped(img) && i < |img.inodes| && o < MAXBYTES
  {
    var a := Addr(img, i, o / BSIZE);
    if a < |img.blocks| then img.blocks[a][o % BSIZE] else 0
  }

  /** The first n bytes of inode i. */
  ghost function Bytes(img: Image, i: nat, n: nat): (c: seq<Byte>)
    requires Shaped(img) && i < |img.inodes| && n <= MAXBYTES
    ensures |c| == n
  {
    if n == 0 then [] else Bytes(img, i, n - 1) + [ByteAt(img, i, n - 1)]
  }

  lemma {:induction false} BytesAt(img: Image, i: nat, n: nat, o: nat)
    requires Shaped(img) && i < |img.inodes| && o < n <= MAXBYTES
    ensures Bytes(img, i, n)[o] == ByteAt(img, i, o)
  {
    if o < n - 1 {
      BytesAt(img, i, n - 1, o);
    }
  }

  /** The flat contents of a file. */
  ghost function Contents(img: Image, i: nat): (c: seq<Byte>)
    requires Shaped(img) && i < |img.inodes| && img.inodes[i].size <= MAXBYTES
    ensures |c| == img.inodes[i].size
  {
    Bytes(img, i, img.inodes[i].size)
  }

  /** A file is what its bytes are. */
  lemma ContentsAre(img: Image, i: nat, c: seq<Byte>)
    requires Shaped(img) && i < |img.inodes| && img.inodes[i].size == |c| <= MAXBYTES
    requires forall o: nat :: o < |c| ==> ByteAt(img, i, o) == c[o]
    ensures Contents(img, i) == c
  {
    forall o: nat | o < |c| ensures Contents(img, i)[o] == c[o] {
      BytesAt(img, i, |c|, o);
    }
  }

  /** Overwriting from off on, growing if needed. */
  function Splice(c: seq<Byte>, off: nat, data: seq<Byte>): (r: seq<Byte>)
    requires off <= |c|
    ensures |r| == if off + |data| > |c| then off + |data| else |c|
  {
    c[..off] + data + (if off + |data| < |c| then c[off + |data|..] else [])
  }

  lemma SpliceAt(c: seq<Byte>, off: nat, data: seq<Byte>, o: nat)
    requires off <= |c| && o < |Splice(c, off, data)|
    ensures Splice(c, off, data)[o] == if off <= o < off + |data| then data[o - off] else c[o]
  {
  }

  // ---- What keeps an image valid ----

  /** Two places that exist never share a block. */
  lemma Disjoint(img: Image, owner: map<nat, Place>, p: Place, q: Place)
    requires Shaped(img) && Owned(img, owner) && IsPlace(img, p) && IsPlace(img, q)
    requires Refers(img, p) == Refers(img, q) && Refers(img, p) != 0
    ensures p == q
  {
  }

  /** Contents follow from references, sizes and the blocks referred to. */
  lemma SameContents(img: Image, img': Image, j: nat)
    requires Shaped(img) && Shaped(img') && j < |img.inodes| == |img'.inodes| && |img.blocks| == |img'.blocks|
    requires img.inodes[j].size == img'.inodes[j].size <= MAXBYTES
    requires forall bn: nat :: bn < MAXFILE && bn * BSIZE < img.inodes[j].size ==>
      && Addr(img', j, bn) == Addr(img, j, bn)
      && (Addr(img, j, bn) < |img.blocks| ==> img'.blocks[Addr(img, j, bn)] == img.blocks[Addr(img, j, bn)])
    ensures Contents(img', j) == Contents(img, j)
  {
    forall o: nat | o < img.inodes[j].size ensures ByteAt(img', j, o) == Contents(img, j)[o] {
      assert o / BSIZE < MAXFILE && (o / BSIZE) * BSIZE < img.inodes[j].size;
      BytesAt(img, j, img.inodes[j].size, o);
    }
    ContentsAre(img', j, Contents(img, j));
  }

  /** Setting the contents of block b. */
  function SetBlock(img: Image, b: nat, v: Block): (r: Image)
    requires b < |img.blocks|
  {
    img.(blocks := img.blocks[b := v])
  }

  /** Changing a block that is no indirect block changes no reference. */
  lemma RefsKept(img: Image, owner: map<nat, Place>, b: nat, v: Block)
    requires Shaped(img) && Owned(img, owner) && b < |img.blocks| && |v| == BSIZE
    requires b !in owner || owner[b].Data?
    ensures Shaped(SetBlock(img, b, v))
    ensures forall i: nat, bn: nat :: i < |img.inodes| && bn < MAXFILE ==> Addr(SetBlock(img, b, v), i, bn) == Addr(img, i, bn)
    ensures Owned(SetBlock(img, b, v), owner)
  {
    var r := SetBlock(img, b, v);
    forall i: nat, bn: nat | i < |img.inodes| && bn < MAXFILE ensures Addr(r, i, bn) == Addr(img, i, bn) {
      assert IndAddr(img, i) == Refers(img, Ind(i));
      assert IndAddr(img, i) == IndAddr(r, i);
    }
    forall pl | IsPlace(r, pl) ensures IsPlace(img, pl) && Refers(r, pl) == Refers(img, pl) {
    }
    forall pl | IsPlace(img, pl) ensures IsPlace(r, pl) && Refers(r, pl) == Refers(img, pl) {
    }
  }

  /** Writing a block that belongs to nobody changes no file. */
  lemma FreeBlockWrite(img: Image, owner: map<nat, Place>, b: nat, v: Block)
    requires Valid(img, owner) && b < |img.blocks| && |v| == BSIZE && b !in owner
    ensures Valid(SetBlock(img, b, v), owner) && Extends(img, SetBlock(img, b, v))
    ensures forall i: nat, bn: nat :: i < |img.inodes| && bn < MAXFILE ==> Addr(SetBlock(img, b, v), i, bn) == Addr(img, i, bn)
  {
    RefsKept(img, owner, b, v);
    forall j: nat, bn: nat | j < |img.inodes| && bn < MAXFILE ensures Stays(img, SetBlock(img, b, v), j, bn) {
      assert Refers(img, Data(j, bn)) == Addr(img, j, bn);
    }
  }

  /** Writing block bn of file i changes only that file, and only there. */
  lemma DataBlockWrite(img: Image, owner: map<nat, Place>, i: nat, bn: nat, v: Block)
    requires Valid(img, owner) && i < |img.inodes| && bn < MAXFILE && Addr(img, i, bn) != 0 && |v| == BSIZE
    ensures Addr(img, i, bn) < |img.blocks|
    ensures var r := SetBlock(img, Addr(img, i, bn), v);
      && Valid(r, owner)
      && (forall k: nat :: k < MAXFILE ==> Addr(r, i, k) == Addr(img, i, k))
      && (forall o: nat :: o < MAXBYTES && Addr(img, i, o / BSIZE) != 0 ==>
            ByteAt(r, i, o) == if o / BSIZE == bn then v[o % BSIZE] else ByteAt(img, i, o))
      && (forall j: nat :: j < |img.inodes| && j != i ==> Contents(r, j) == Contents(img, j))
  {
    assert Refers(img, Data(i, bn)) == Addr(img, i, bn);
    var b := Addr(img, i, bn);
    RefsKept(img, owner, b, v);
    var r := SetBlock(img, b, v);
    forall o: nat | o < MAXBYTES && Addr(img, i, o / BSIZE) != 0
      ensures ByteAt(r, i, o) == if o / BSIZE == bn then v[o % BSIZE] else ByteAt(img, i, o)
    {
      assert Refers(img, Data(i, o / BSIZE)) == Addr(img, i, o / BSIZE);
    }
    forall j: nat | j < |img.inodes| && j != i ensures Contents(r, j) == Contents(img, j) {
      forall k: nat | k < MAXFILE && k * BSIZE < img.inodes[j].size ensures Addr(img, j, k) != b {
        assert Refers(img, Data(j, k)) == Addr(img, j, k);
      }
      SameContents(img, r, j);
    }
  }

  // ---- Linking a fresh block in ----

  function SetAddr(img: Image, i: nat, k: nat, b: nat): (r: Image)
    requires i < |img.inodes| && k < |img.inodes[i].addrs|
  {
    img.(inodes := img.inodes[i := img.inodes[i].(addrs := img.inodes[i].addrs[k := b])])
  }

  /** img' is img with place pl, empty before, now referring to b, and all else the same. */
  ghost predicate LinksIn(img: Image, img': Image, pl: Place, b: nat)
    requires Shaped(img) && IsPlace(img, pl)
  {
    && Shaped(img') && |img'.inodes| == |img.inodes| && |img'.blocks| == |img.blocks|
    && (forall j :: 0 <= j < |img.inodes| ==> img'.inodes[j].size == img.inodes[j].size)
    && Refers(img, pl) == 0
    && (forall q :: IsPlace(img, q) ==> Refers(img', q) == if q == pl then b else Refers(img, q))
  }

  /** Linking a block nobody owns keeps the image valid, with the block now owned by the place. */
  lemma LinkValid(img: Image, owner: map<nat, Place>, img': Image, pl: Place, b: nat)
    requires Valid(img, owner) && IsPlace(img, pl) && LinksIn(img, img', pl, b)
    requires b !in owner && 0 < b < |img.blocks| && b < UINT
    ensures Valid(img', owner[b := pl])
  {
    forall q | IsPlace(img', q) ensures IsPlace(img, q) {
    }
    assert Owned(img', owner[b := pl]);
    forall i: nat, bn: nat | i < |img.inodes| && bn < MAXFILE && bn * BSIZE < img.inodes[i].size ensures Addr(img', i, bn) != 0 {
      assert Refers(img', Data(i, bn)) == Addr(img', i, bn) && Refers(img, Data(i, bn)) == Addr(img, i, bn);
    }
  }

  /** Nothing that was in a file moves or changes: img' only has more blocks linked in. */
  ghost predicate Extends(img: Image, img': Image)
    requires Shaped(img) && Shaped(img')
  {
    && |img'.inodes| == |img.inodes| && |img'.blocks| == |img.blocks|
    && (forall j :: 0 <= j < |img.inodes| ==> img'.inodes[j].size == img.inodes[j].size)
    && (forall j: nat, bn: nat :: j < |img.inodes| && bn < MAXFILE ==> Stays(img, img', j, bn))
  }

  ghost predicate Stays(img: Image, img': Image, j: nat, bn: nat)
    requires Shaped(img) && Shaped(img') && |img'.inodes| == |img.inodes| && |img'.blocks| == |img.blocks|
    requires j < |img.inodes| && bn < MAXFILE
  {
    var a := Addr(img, j, bn);
    a != 0 ==> Addr(img', j, bn) == a && (a < |img.blocks| ==> img'.blocks[a] == img.blocks[a])
  }

  lemma ExtendsBytes(img: Image, img': Image, j: nat, o: nat)
    requires Shaped(img) && Shaped(img') && Extends(img, img') && j < |img.inodes| && o < MAXBYTES
    requires Addr(img, j, o / BSIZE) != 0
    ensures ByteAt(img', j, o) == ByteAt(img, j, o)
  {
    assert Stays(img, img', j, o / BSIZE);
  }

  lemma ExtendsTwice(img: Image, img': Image, img'': Image)
    requires Shaped(img) && Shaped(img') && Shaped(img'')
    requires Extends(img, img') && Extends(img', img'')
    ensures Extends(img, img'')
  {
    forall j: nat, bn: nat | j < |img.inodes| && bn < MAXFILE ensures Stays(img, img'', j, bn) {
      assert Stays(img, img', j, bn) && Stays(img', img'', j, bn);
    }
  }

  /** So every file keeps its contents. */
  lemma ExtendsContents(img: Image, img': Image, j: nat)
    requires Shaped(img) && Shaped(img') && Extends(img, img') && NoHoles(img) && j < |img.inodes|
    requires img.inodes[j].size <= MAXBYTES
    ensures Contents(img', j) == Contents(img, j)
  {
    forall bn: nat | bn < MAXFILE && bn * BSIZE < img.inodes[j].size
      ensures Addr(img, j, bn) != 0 && Stays(img, img', j, bn)
    {
    }
    SameContents(img, img', j);
  }

  /** A link moves nothing: only indirect blocks and blocks nobody owns change. */
  lemma LinkExtends(img: Image, owner: map<nat, Place>, img': Image, pl: Place, b: nat)
    requires Valid(img, owner) && IsPlace(img, pl) && LinksIn(img, img', pl, b)
    requires forall a: nat :: a < |img.blocks| && a in owner && owner[a].Data? ==> img'.blocks[a] == img.blocks[a]
    ensures Extends(img, img')
  {
    forall j: nat, bn: nat | j < |img.inodes| && bn < MAXFILE ensures Stays(img, img', j, bn) {
      assert Refers(img', Data(j, bn)) == Addr(img', j, bn) && Refers(img, Data(j, bn)) == Addr(img, j, bn);
    }
  }

  lemma LinkDirect(img: Image, owner: map<nat, Place>, i: nat, bn: nat, b: nat)
    requires Valid(img, owner) && i < |img.inodes| && bn < NDIRECT && Addr(img, i, bn) == 0
    ensures LinksIn(img, SetAddr(img, i, bn, b), Data(i, bn), b)
  {
    var r := SetAddr(img, i, bn, b);
    forall q | IsPlace(img, q) ensures Refers(r, q) == if q == Data(i, bn) then b else Refers(img, q) {
    }
  }

  lemma LinkInd(img: Image, owner: map<nat, Place>, i: nat, b: nat)
    requires Valid(img, owner) && i < |img.inodes| && IndAddr(img, i) == 0
    requires 0 < b < |img.blocks| && img.blocks[b] == Zeros()
    ensures LinksIn(img, SetAddr(img, i, NDIRECT, b), Ind(i), b)
  {
    var r := SetAddr(img, i, NDIRECT, b);
    forall q | IsPlace(img, q) ensures Refers(r, q) == if q == Ind(i) then b else Refers(img, q) {
      if q.Data? && q.bn >= NDIRECT && q.i == i {
        WordZero(q.bn - NDIRECT);
      }
    }
  }

  lemma LinkWord(img: Image, owner: map<nat, Place>, i: nat, bn: nat, b: nat)
    requires Valid(img, owner) && i < |img.inodes| && NDIRECT <= bn < MAXFILE && Addr(img, i, bn) == 0
    requires IndAddr(img, i) != 0 && b < UINT
    ensures IndAddr(img, i) < |img.blocks|
    ensures var a := IndAddr(img, i);
      LinksIn(img, SetBlock(img, a, PutWord(img.blocks[a], bn - NDIRECT, b)), Data(i, bn), b)
  {
    var a := IndAddr(img, i);
    assert Refers(img, Ind(i)) == a;
    var r := SetBlock(img, a, PutWord(img.blocks[a], bn - NDIRECT, b));
    forall q | IsPlace(img, q) ensures Refers(r, q) == if q == Data(i, bn) then b else Refers(img, q) {
      if q.Data? && q.bn >= NDIRECT {
        if q.i == i {
          WordPut(img.blocks[a], bn - NDIRECT, b, q.bn - NDIRECT);
        } else {
          assert Refers(img, Ind(q.i)) == IndAddr(img, q.i);
        }
      }
    }
  }

  // ---- Allocation, as one step on images ----

  /** The place slot k of an inode's addrs array stands for. */
  function SlotPlace(i: nat, k: nat): (pl: Place)
    requires k <= NDIRECT
  {
    if k < NDIRECT then Data(i, k) else Ind(i)
  }

  /** A zeroed free block put in an empty slot of addrs. */
  lemma AllocSlot(img: Image, owner: map<nat, Place>, i: nat, k: nat, b: nat)
    requires Valid(img, owner) && i < |img.inodes| && k <= NDIRECT && img.inodes[i].addrs[k] == 0
    requires b !in owner && 0 < b < |img.blocks| && b < UINT
    ensures var r := SetAddr(SetBlock(img, b, Zeros()), i, k, b);
      Valid(r, owner[b := SlotPlace(i, k)]) && Extends(img, r)
  {
    var z := SetBlock(img, b, Zeros());
    FreeBlockWrite(img, owner, b, Zeros());
    if k < NDIRECT { LinkDirect(z, owner, i, k, b); } else { LinkInd(z, owner, i, b); }
    var r := SetAddr(z, i, k, b);
    LinkValid(z, owner, r, SlotPlace(i, k), b);
    LinkExtends(z, owner, r, SlotPlace(i, k), b);
    ExtendsTwice(img, z, r);
  }

  /** A zeroed free block put in an empty word of the indirect block. */
  lemma AllocWord(img: Image, owner: map<nat, Place>, i: nat, bn: nat, b: nat)
    requires Valid(img, owner) && i < |img.inodes| && NDIRECT <= bn < MAXFILE && Addr(img, i, bn) == 0
    requires IndAddr(img, i) != 0
    requires b !in owner && 0 < b < |img.blocks| && b < UINT
    ensures IndAddr(img, i) < |img.blocks| && IndAddr(img, i) != b
    ensures var z, a := SetBlock(img, b, Zeros()), IndAddr(img, i);
      var r := SetBlock(z, a, PutWord(z.blocks[a], bn - NDIRECT, b));
      Valid(r, owner[b := Data(i, bn)]) && Extends(img, r) && Addr(r, i, bn) == b
  {
    var z, a := SetBlock(img, b, Zeros()), IndAddr(img, i);
    FreeBlockWrite(img, owner, b, Zeros());
    assert Refers(img, Ind(i)) == a && a in owner;
    LinkWord(z, owner, i, bn, b);
    var r := SetBlock(z, a, PutWord(z.blocks[a], bn - NDIRECT, b));
    LinkValid(z, owner, r, Data(i, bn), b);
    LinkExtends(z, owner, r, Data(i, bn), b);
    ExtendsTwice(img, z, r);
    assert Refers(r, Data(i, bn)) == Addr(r, i, bn);
  }

  // ---- Growing and truncating ----

  /** A larger size is fine once the blocks are there. */
  lemma Grow(img: Image, owner: map<nat, Place>, i: nat, size: nat)
    requires Valid(img, owner) && i < |img.inodes| && img.inodes[i].size <= size <= MAXBYTES
    requires forall bn: nat :: bn < MAXFILE && bn * BSIZE < size ==> Addr(img, i, bn) != 0
    ensures var r := img.(inodes := img.inodes[i := img.inodes[i].(size := size)]);
      && Valid(r, owner)
      && (forall o: nat :: o < MAXBYTES ==> ByteAt(r, i, o) == ByteAt(img, i, o))
      && (forall j: nat :: j < |img.inodes| && j != i ==> Contents(r, j) == Contents(img, j))
  {
    var r := img.(inodes := img.inodes[i := img.inodes[i].(size := size)]);
    forall j: nat, bn: nat | j < |img.inodes| && bn < MAXFILE ensures Addr(r, j, bn) == Addr(img, j, bn) {
    }
    forall pl | IsPlace(img, pl) ensures Refers(r, pl) == Refers(img, pl) {
    }
    assert Owned(r, owner);
    forall j: nat | j < |img.inodes| && j != i ensures Contents(r, j) == Contents(img, j) {
      SameContents(img, r, j);
    }
  }

  /** The blocks that do not belong to inode i. */
  ghost function Others(owner: map<nat, Place>, i: nat): (r: map<nat, Place>) {
    map b | b in owner && owner[b].i != i :: owner[b]
  }

  /** An inode with no blocks at all leaves every other file as it was. */
  lemma Truncate(img: Image, owner: map<nat, Place>, i: nat, addrs: seq<nat>)
    requires Valid(img, owner) && i < |img.inodes|
    requires |addrs| == NDIRECT + 1 && forall k :: 0 <= k <= NDIRECT ==> addrs[k] == 0
    ensures var r := img.(inodes := img.inodes[i := Inode(addrs, 0)]);
      && Valid(r, Others(owner, i)) && Contents(r, i) == []
      && forall j: nat :: j < |img.inodes| && j != i ==> Contents(r, j) == Contents(img, j)
  {
    var r := img.(inodes := img.inodes[i := Inode(addrs, 0)]);
    forall pl | IsPlace(img, pl) ensures Refers(r, pl) == if pl.i == i then 0 else Refers(img, pl) {
    }
    assert Owned(r, Others(owner, i));
    forall j: nat, bn: nat | j < |img.inodes| && bn < MAXFILE && bn * BSIZE < r.inodes[j].size ensures Addr(r, j, bn) != 0 {
      assert Refers(r, Data(j, bn)) == Addr(r, j, bn) && Refers(img, Data(j, bn)) == Addr(img, j, bn);
    }
    forall j: nat | j < |img.inodes| && j != i ensures Contents(r, j) == Contents(img, j) {
      SameContents(img, r, j);
    }
  }
}
