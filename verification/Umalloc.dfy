/**
 The Kernighan and Ritchie allocator of user/umalloc.c.  Addresses count header
 units of 16 bytes; `ptr` and `size` are the two header fields in memory.  The
 static header `base` lies below the heap.  What `sbrk` returns is a parameter.
 */
module Umalloc {

  const UNIT: nat := 16 // sizeof(Header)
  const MINCORE: nat := 4096

  type Addr = int

  // ---- Tilings of the heap ----

  /** b is the first unit of a block. */
  ghost predicate Block(blocks: map<Addr, nat>, b: Addr) {
    b in blocks
  }

  /** Unit u belongs to block b. */
  ghost predicate Covers(blocks: map<Addr, nat>, b: Addr, u: Addr) {
    b in blocks && b <= u < b + blocks[b]
  }

  /** Blocks (first unit to number of units) that cover exactly the heap without overlap. */
  ghost predicate Tiles(blocks: map<Addr, nat>, heap: set<Addr>) {
    && (forall b: Addr :: Block(blocks, b) ==> blocks[b] > 0)
    && (forall b: Addr, c: Addr :: Block(blocks, b) && Block(blocks, c) && b < c ==> b + blocks[b] <= c)
    && (forall b: Addr, u: Addr :: Covers(blocks, b, u) ==> u in heap)
    && (forall u: Addr :: u in heap ==> exists b: Addr :: Covers(blocks, b, u))
  }

  function Merged(blocks: map<Addr, nat>, b: Addr, c: Addr): (r: map<Addr, nat>)
    requires b in blocks && c in blocks
  {
    (blocks - {c})[b := blocks[b] + blocks[c]]
  }

  lemma MergeTiles(blocks: map<Addr, nat>, heap: set<Addr>, b: Addr, c: Addr)
    requires Tiles(blocks, heap) && b in blocks && c in blocks && c == b + blocks[b]
    ensures Tiles(Merged(blocks, b, c), heap)
  {
    var r := Merged(blocks, b, c);
    assert Block(blocks, b) && Block(blocks, c);
    forall d: Addr | Block(r, d) ensures Block(blocks, d) {
    }
    forall u: Addr | u in heap ensures exists d: Addr :: Covers(r, d, u) {
      var d: Addr :| Covers(blocks, d, u);
      assert Covers(r, if d == c then b else d, u);
    }
    forall d: Addr, u: Addr | Covers(r, d, u) ensures u in heap {
      assert Covers(blocks, if d == b && u >= c then c else d, u);
    }
  }

  function Split(blocks: map<Addr, nat>, b: Addr, n: nat): (r: map<Addr, nat>)
    requires b in blocks && n <= blocks[b]
  {
    blocks[b := blocks[b] - n][b + blocks[b] - n := n]
  }

  lemma SplitTiles(blocks: map<Addr, nat>, heap: set<Addr>, b: Addr, n: nat)
    requires Tiles(blocks, heap) && b in blocks && 0 < n < blocks[b]
    ensures b + blocks[b] - n !in blocks
    ensures Tiles(Split(blocks, b, n), heap)
  {
    var r, t := Split(blocks, b, n), b + blocks[b] - n;
    assert Block(blocks, b) && (t in blocks ==> Block(blocks, t));
    forall d: Addr | Block(r, d) ensures d == t || Block(blocks, d) {
    }
    forall u: Addr | u in heap ensures exists d: Addr :: Covers(r, d, u) {
      var d: Addr :| Covers(blocks, d, u);
      assert Covers(r, if d == b && u >= t then t else d, u);
    }
    forall d: Addr, u: Addr | Covers(r, d, u) ensures u in heap {
      assert Covers(blocks, if d == t then b else d, u);
    }
  }

  ghost predicate Apart(heap: set<Addr>, a: Addr, n: nat) {
    forall u: Addr :: u in heap ==> !(a <= u < a + n)
  }

  function Range(a: Addr, n: nat): (r: set<Addr>)
    ensures forall u: Addr :: u in r <==> a <= u < a + n
  {
    if n == 0 then {} else Range(a, n - 1) + {a + n - 1}
  }

  lemma GrowTiles(blocks: map<Addr, nat>, heap: set<Addr>, a: Addr, n: nat)
    requires Tiles(blocks, heap) && n > 0 && Apart(heap, a, n)
    ensures a !in blocks
    ensures Tiles(blocks[a := n], heap + Range(a, n))
  {
    var r := blocks[a := n];
    if a in blocks {
      assert Block(blocks, a);
      assert Covers(blocks, a, a);
    }
    forall b: Addr | Block(r, b) && b != a ensures Block(blocks, b) && (b < a ==> b + blocks[b] <= a) && (a < b ==> a + n <= b) {
      assert Block(blocks, b);
      assert b < a < b + blocks[b] ==> Covers(blocks, b, a);
      assert Covers(blocks, b, b);
    }
    forall u: Addr | u in heap + Range(a, n) ensures exists d: Addr :: Covers(r, d, u) {
      if u in heap {
        var d: Addr :| Covers(blocks, d, u);
        assert Covers(r, d, u);
      } else {
        assert Covers(r, a, u);
      }
    }
    forall d: Addr, u: Addr | Covers(r, d, u) ensures u in heap + Range(a, n) {
      assert d != a ==> Covers(blocks, d, u);
    }
  }

  // ---- The free list ----

  /** Address order: base first, one wrap point from the last element back to it. */
  ghost predicate Ascending(list: seq<Addr>) {
    forall i, j :: 0 <= i < j < |list| ==> list[i] < list[j]
  }

  function NextOf(list: seq<Addr>, i: nat): (a: Addr)
    requires i < |list|
  {
    if i + 1 < |list| then list[i + 1] else list[0]
  }

  /** The headers' pointers run round the list. */
  ghost predicate Ring(list: seq<Addr>, ptr: map<Addr, Addr>) {
    && (forall i: nat :: i < |list| ==> list[i] in ptr)
    && (forall i: nat {:trigger NextOf(list, i)} :: i < |list| ==> ptr[list[i]] == NextOf(list, i))
  }

  /** The last element below bp: where free inserts. */
  function Slot(list: seq<Addr>, bp: Addr): (t: nat)
    requires |list| > 0 && list[0] < bp
    ensures t < |list| && list[t] < bp
    ensures t + 1 < |list| ==> bp <= list[t + 1]
  {
    if |list| > 1 && list[1] < bp then 1 + Slot(list[1..], bp) else 0
  }

  lemma SlotOrder(list: seq<Addr>, bp: Addr)
    requires |list| > 0 && list[0] < bp && Ascending(list) && bp !in list
    ensures var t := Slot(list, bp);
      && (forall i :: 0 <= i <= t ==> list[i] < bp)
      && (forall i :: t < i < |list| ==> bp < list[i])
  {
    var t := Slot(list, bp);
    if t + 1 < |list| {
      assert list[t + 1] in list;
    }
  }

  // ---- Bytes and units ----

  function Units(nbytes: nat): (n: nat)
    ensures UNIT * (n - 1) >= nbytes && UNIT * (n - 2) < nbytes
  {
    (nbytes + UNIT - 1) / UNIT + 1
  }

  function CoreUnits(nunits: nat): (nu: nat)
    ensures nu >= nunits && nu >= MINCORE
  {
    if nunits < MINCORE then MINCORE else nunits
  }

  /** A C int made from an unsigned byte count. */
  function ToInt(x: nat): (r: int)
    ensures -0x8000_0000 <= r < 0x8000_0000
  {
    var w := x % 0x1_0000_0000;
    if w < 0x8000_0000 then w else w - 0x1_0000_0000
  }

  const MAXREQUEST: nat := 2147483616

  /** sbrk is asked for the bytes malloc means exactly up to this request; beyond it the int wraps. */
  lemma RequestFitsInt(nbytes: nat)
    requires nbytes < 0x1_0000_0000
    ensures var bytes := CoreUnits(Units(nbytes)) * UNIT;
      ToInt(bytes) == bytes <==> nbytes <= MAXREQUEST
  {
  }

  /** The units that morecore's call of sbrk obtains; a negative byte count obtains none. */
  function Granted(nunits: nat): (n: nat) {
    var bytes := ToInt(CoreUnits(nunits) * UNIT);
    if bytes > 0 then bytes / UNIT else 0
  }

  /** morecore obtains the units it records exactly up to this request. */
  lemma GrantedAll(nbytes: nat)
    requires nbytes < 0x1_0000_0000
    ensures Granted(Units(nbytes)) <= CoreUnits(Units(nbytes))
    ensures Granted(Units(nbytes)) == CoreUnits(Units(nbytes)) <==> nbytes <= MAXREQUEST
  {
    RequestFitsInt(nbytes);
  }

  /** The largest request makes malloc obtain one unit and believe it has 2^28 + 1. */
  lemma HugeRequestWraps()
    ensures Units(0xFFFF_FFFF) == 0x1000_0001
    ensures ToInt(CoreUnits(Units(0xFFFF_FFFF)) * UNIT) == UNIT
  {
  }

  // ---- Freeing, on values ----

  /** The free list and all blocks, free or held by the program. */
  datatype Arena = Arena(list: seq<Addr>, blocks: map<Addr, nat>)

  /** Free block number i ends exactly where the next one begins; base never does. */
  ghost predicate Touch(a: Arena, i: nat) {
    && 1 <= i < |a.list| - 1 && a.list[i] in a.blocks && a.list[i + 1] in a.blocks
    && a.list[i] + a.blocks[a.list[i]] == a.list[i + 1]
  }

  /** List, blocks and heap fit together, except that free blocks may touch. */
  ghost predicate Sound(a: Arena, heap: set<Addr>) {
    && |a.list| > 0 && Ascending(a.list) && Tiles(a.blocks, heap)
    && (forall i :: 1 <= i < |a.list| ==> a.list[i] in a.blocks)
    && forall u: Addr :: u in heap ==> a.list[0] < u
  }

  ghost predicate Coalesced(a: Arena) {
    forall i: nat :: !Touch(a, i)
  }

  /** The blocks the program holds: those not on the free list. */
  function Live(a: Arena): (r: map<Addr, nat>) {
    map b | b in a.blocks && b !in a.list :: a.blocks[b]
  }

  function Drop(list: seq<Addr>, i: nat): (r: seq<Addr>)
    requires i < |list|
    ensures |r| == |list| - 1
    ensures forall j :: 0 <= j < |r| ==> r[j] == list[if j < i then j else j + 1]
  {
    list[..i] + list[i + 1..]
  }

  function InsertAfter(list: seq<Addr>, t: nat, bp: Addr): (r: seq<Addr>)
    requires t < |list|
    ensures |r| == |list| + 1
    ensures forall j :: 0 <= j < |r| ==> r[j] == if j <= t then list[j] else if j == t + 1 then bp else list[j - 1]
  {
    list[..t + 1] + [bp] + list[t + 1..]
  }

  lemma InsertMembers(list: seq<Addr>, t: nat, bp: Addr)
    requires t < |list|
    ensures forall b: Addr :: b in InsertAfter(list, t, bp) <==> b in list || b == bp
  {
    assert list == list[..t + 1] + list[t + 1..];
  }

  lemma DropMembers(list: seq<Addr>, i: nat)
    requires i < |list| && Ascending(list)
    ensures forall b: Addr :: b in Drop(list, i) <==> b in list && b != list[i]
  {
    assert list == list[..i] + [list[i]] + list[i + 1..];
    assert forall j :: 0 <= j < i ==> list[j] != list[i];
    assert forall j :: i < j < |list| ==> list[j] != list[i];
  }

  /** Merge free block i with its successor if they touch. */
  ghost function Joined(a: Arena, i: nat): (r: Arena)
  {
    if Touch(a, i) then Arena(Drop(a.list, i + 1), Merged(a.blocks, a.list[i], a.list[i + 1])) else a
  }

  lemma BaseBelow(a: Arena, heap: set<Addr>, b: Addr)
    requires Sound(a, heap) && b in a.blocks
    ensures a.list[0] < b
  {
    assert Block(a.blocks, b);
    assert Covers(a.blocks, b, b);
  }

  lemma InsertSound(a: Arena, heap: set<Addr>, bp: Addr, t: nat)
    requires Sound(a, heap) && bp in a.blocks && bp !in a.list
    requires a.list[0] < bp && t == Slot(a.list, bp)
    ensures Sound(a.(list := InsertAfter(a.list, t, bp)), heap)
    ensures Live(a.(list := InsertAfter(a.list, t, bp))) == Live(a) - {bp}
  {
    InsertAscending(a.list, bp, t);
    InsertLive(a, t, bp);
    var list := InsertAfter(a.list, t, bp);
    forall i | 1 <= i < |list| ensures list[i] in a.blocks {
    }
  }

  lemma InsertAscending(list: seq<Addr>, bp: Addr, t: nat)
    requires Ascending(list) && |list| > 0 && list[0] < bp && bp !in list && t == Slot(list, bp)
    ensures Ascending(InsertAfter(list, t, bp))
  {
    SlotOrder(list, bp);
    var r := InsertAfter(list, t, bp);
    forall i, j | 0 <= i < j < |r| ensures r[i] < r[j] {
    }
  }

  lemma InsertLive(a: Arena, t: nat, bp: Addr)
    requires t < |a.list|
    ensures Live(a.(list := InsertAfter(a.list, t, bp))) == Live(a) - {bp}
  {
    InsertMembers(a.list, t, bp);
  }

  /** Only the new neighbours may touch. */
  lemma InsertTouches(a: Arena, bp: Addr, t: nat, i: nat)
    requires t < |a.list| && Coalesced(a) && i != t && i != t + 1
    ensures !Touch(a.(list := InsertAfter(a.list, t, bp)), i)
  {
    if i > t + 1 {
      assert !Touch(a, i - 1);
    } else {
      assert !Touch(a, i);
    }
  }

  lemma JoinSound(a: Arena, heap: set<Addr>, i: nat)
    requires Sound(a, heap)
    ensures Sound(Joined(a, i), heap) && Joined(a, i).list[0] == a.list[0]
    ensures Live(Joined(a, i)) == Live(a)
  {
    if Touch(a, i) {
      MergeTiles(a.blocks, heap, a.list[i], a.list[i + 1]);
      DropMembers(a.list, i + 1);
      assert a.list[i] < a.list[i + 1];
    }
  }

  lemma JoinTouches(a: Arena, heap: set<Addr>, i: nat, j: nat)
    requires Sound(a, heap) && forall k: nat :: k > i ==> !Touch(a, k)
    ensures j >= i ==> !Touch(Joined(a, i), j)
    ensures j < i && Touch(Joined(a, i), j) ==> Touch(a, j)
  {
    if Touch(a, i) {
      assert !Touch(a, j + 1) || j < i;
      var r := Joined(a, i);
      if 1 <= j < |r.list| - 1 {
        assert j < i ==> a.list[j] < a.list[i];
        assert j > i ==> a.list[i + 1] < a.list[j + 1];
        assert r.list[j + 1] == a.list[if j < i then j + 1 else j + 2];
      }
    }
  }

  function Inserted(a: Arena, bp: Addr): (r: Arena)
    requires |a.list| > 0 && a.list[0] < bp
  {
    a.(list := InsertAfter(a.list, Slot(a.list, bp), bp))
  }

  /** Insert bp at its place, then merge it with its successor and its predecessor. */
  ghost function Freed(a: Arena, bp: Addr): (r: Arena)
    requires |a.list| > 0 && a.list[0] < bp
  {
    var t := Slot(a.list, bp);
    Joined(Joined(Inserted(a, bp), t + 1), t)
  }

  /** free keeps the arena sound and coalesced and takes exactly bp from the program. */
  lemma FreedSound(a: Arena, heap: set<Addr>, bp: Addr)
    requires Sound(a, heap) && Coalesced(a) && bp in a.blocks && bp !in a.list && a.list[0] < bp
    ensures var r := Freed(a, bp);
      && Sound(r, heap) && Coalesced(r) && r.list[0] == a.list[0]
      && Live(r) == Live(a) - {bp}
  {
    var t := Slot(a.list, bp);
    var a1 := a.(list := InsertAfter(a.list, t, bp));
    InsertSound(a, heap, bp, t);
    JoinSound(a1, heap, t + 1);
    var a2 := Joined(a1, t + 1);
    JoinSound(a2, heap, t);
    forall j: nat | j != t && j != t + 1 ensures !Touch(a1, j) {
      InsertTouches(a, bp, t, j);
    }
    forall j: nat | j != t ensures !Touch(a2, j) {
      JoinTouches(a1, heap, t + 1, j);
    }
    forall j: nat ensures !Touch(Joined(a2, t), j) {
      JoinTouches(a2, heap, t, j);
    }
  }

  // ---- The ring of pointers ----

  lemma InsertRing(list: seq<Addr>, ptr: map<Addr, Addr>, t: nat, bp: Addr)
    requires Ring(list, ptr) && Ascending(list) && t < |list| && bp !in list
    ensures Ring(InsertAfter(list, t, bp), ptr[bp := ptr[list[t]]][list[t] := bp])
  {
    var r, p' := InsertAfter(list, t, bp), ptr[bp := ptr[list[t]]][list[t] := bp];
    forall i: nat | i < |r| ensures r[i] in p' && p'[r[i]] == NextOf(r, i) {
      if i <= t {
        assert list[i] in ptr && ptr[list[i]] == NextOf(list, i);
        assert r[i] == list[i] && list[i] in list;
        assert i < t ==> list[i] != list[t];
      } else if i == t + 1 {
        assert ptr[list[t]] == NextOf(list, t);
      } else {
        assert list[i - 1] in ptr && ptr[list[i - 1]] == NextOf(list, i - 1);
        assert r[i] == list[i - 1] && list[i - 1] in list;
      }
    }
  }

  lemma DropRing(list: seq<Addr>, ptr: map<Addr, Addr>, i: nat)
    requires Ring(list, ptr) && Ascending(list) && i + 1 < |list|
    ensures Ring(Drop(list, i + 1), ptr[list[i] := ptr[list[i + 1]]])
  {
    var r, p' := Drop(list, i + 1), ptr[list[i] := ptr[list[i + 1]]];
    forall j: nat | j < |r| ensures r[j] in p' && p'[r[j]] == NextOf(r, j) {
      var k := if j <= i then j else j + 1;
      assert list[k] in ptr && ptr[list[k]] == NextOf(list, k);
      assert r[j] == list[k] && (k != i ==> list[k] != list[i]);
      assert list[i + 1] in ptr && ptr[list[i + 1]] == NextOf(list, i + 1);
    }
  }

  /** free's search stops at the slot and nowhere else, at the wrap point included. */
  lemma StopsAtSlot(list: seq<Addr>, bp: Addr, j: nat)
    requires |list| > 0 && list[0] < bp && Ascending(list) && bp !in list && j < |list|
    ensures var p, q := list[j], NextOf(list, j);
      (p < bp < q || (p >= q && (bp > p || bp < q))) <==> j == Slot(list, bp)
  {
    SlotOrder(list, bp);
  }

  /** What free's first comparison decides. */
  lemma UpDecision(a: Arena, heap: set<Addr>, bp: Addr)
    requires Sound(a, heap) && bp in a.blocks && bp !in a.list && a.list[0] < bp
    ensures var t := Slot(a.list, bp);
      var q, a1 := NextOf(a.list, t), Inserted(a, bp);
      var a2 := Joined(a1, t + 1);
      && Sound(a1, heap) && Sound(a2, heap)
      && a1.list[t] == a.list[t] && a1.list[t + 1] == bp
      && t + 1 < |a2.list| && a2.list[t] == a.list[t] && a2.list[t + 1] == bp
      && (Touch(a1, t + 1) <==> bp + a.blocks[bp] == q)
      && (Touch(a1, t + 1) ==> a1.list[t + 2] == q && q in a.blocks && q != a.list[t] && a2.blocks == Merged(a.blocks, bp, q))
  {
    var t := Slot(a.list, bp);
    InsertSound(a, heap, bp, t);
    JoinSound(Inserted(a, bp), heap, t + 1);
    BaseBelow(a, heap, bp);
    UpTouch(a, bp, t);
  }

  /** bp touches its successor on the list exactly if it ends where the next list element starts. */
  lemma UpTouch(a: Arena, bp: Addr, t: nat)
    requires |a.list| > 0 && Ascending(a.list) && (forall i :: 1 <= i < |a.list| ==> a.list[i] in a.blocks)
    requires bp in a.blocks && a.list[0] < bp && t == Slot(a.list, bp)
    ensures var q, a1 := NextOf(a.list, t), Inserted(a, bp);
      var a2 := Joined(a1, t + 1);
      && a1.list[t] == a.list[t] && a1.list[t + 1] == bp
      && t + 1 < |a2.list| && a2.list[t] == a.list[t] && a2.list[t + 1] == bp
      && (Touch(a1, t + 1) <==> bp + a.blocks[bp] == q)
      && (Touch(a1, t + 1) ==> a1.list[t + 2] == q && q in a.blocks && q != a.list[t] && a2.blocks == Merged(a.blocks, bp, q))
  {
    if t + 1 < |a.list| {
      assert Inserted(a, bp).list[t + 2] == a.list[t + 1];
      assert a.list[t] < a.list[t + 1];
    }
  }

  /** What free's second comparison decides. */
  lemma DownDecision(a: Arena, heap: set<Addr>, bp: Addr)
    requires Sound(a, heap) && bp in a.blocks && bp !in a.list && a.list[0] < bp
    ensures var t := Slot(a.list, bp);
      var p, a2 := a.list[t], Joined(Inserted(a, bp), Slot(a.list, bp) + 1);
      && (Touch(a2, t) <==> t > 0 && p in a.blocks && p + a.blocks[p] == bp)
      && (Touch(a2, t) ==> p in a2.blocks && bp in a2.blocks && Freed(a, bp).blocks == Merged(a2.blocks, p, bp))
  {
    UpDecision(a, heap, bp);
  }

  /** The list and blocks free leaves, by what its comparisons decide. */
  lemma FreedIs(a: Arena, heap: set<Addr>, bp: Addr, t: nat, p: Addr, q: Addr, up: bool, down: bool)
    requires Sound(a, heap) && bp in a.blocks && bp !in a.list && a.list[0] < bp && t == Slot(a.list, bp)
    requires p == a.list[t] && q == NextOf(a.list, t)
    requires up == (bp + a.blocks[bp] == q) && down == (t > 0 && p in a.blocks && p + a.blocks[p] == bp)
    ensures Ascending(InsertAfter(a.list, t, bp))
    ensures up ==> t + 1 < |a.list| && q in a.blocks && q != p && q != bp
    ensures var l1 := InsertAfter(a.list, t, bp);
      var l2 := if up then Drop(l1, t + 2) else l1;
      var b2 := if up then Merged(a.blocks, bp, q) else a.blocks;
      && bp in b2 && (down ==> p in b2)
      && Freed(a, bp) == Arena(if down then Drop(l2, t + 1) else l2, if down then Merged(b2, p, bp) else b2)
  {
    UpDecision(a, heap, bp);
    DownDecision(a, heap, bp);
    InsertAscending(a.list, bp, t);
  }

  /** The pointers after free's two if-statements. */
  function FreedPtr(ptr: map<Addr, Addr>, bp: Addr, p: Addr, q: Addr, up: bool, down: bool): (r: map<Addr, Addr>)
    requires p in ptr && (up ==> q in ptr)
  {
    var pb := if up then ptr[q] else ptr[p];
    ptr[bp := pb][p := if down then pb else bp]
  }

  /** The pointers after linking bp in after list[t] and, if it touches the next block, absorbing that one. */
  lemma UpRing(list: seq<Addr>, ptr: map<Addr, Addr>, t: nat, bp: Addr, up: bool)
    requires Ring(list, ptr) && Ascending(list) && t < |list| && bp !in list && (up ==> t + 1 < |list|)
    requires Ascending(InsertAfter(list, t, bp))
    ensures var p, q := list[t], NextOf(list, t);
      var l1 := InsertAfter(list, t, bp);
      var l2 := if up then Drop(l1, t + 2) else l1;
      && p in ptr && q in ptr && ptr[p] == q && p != bp
      && t + 1 < |l2| && l2[t] == p && l2[t + 1] == bp
      && Ascending(l2) && Ring(l2, ptr[bp := if up then ptr[q] else q][p := bp])
  {
    var p, q := list[t], NextOf(list, t);
    assert p in ptr && ptr[p] == q;
    assert q in ptr by {
      var k := if t + 1 < |list| then t + 1 else 0;
      assert q == list[k] && ptr[list[k]] == NextOf(list, k);
    }
    var l1 := InsertAfter(list, t, bp);
    InsertRing(list, ptr, t, bp);
    assert p in list;
    if up {
      assert q == list[t + 1] && q in list && q != p;
      DropRing(l1, ptr[bp := q][p := bp], t + 1);
      DropAscending(l1, t + 2);
      assert ptr[bp := q][p := bp][bp := ptr[q]] == ptr[bp := ptr[q]][p := bp];
    }
  }

  /** The pointers after p absorbs bp, the block after it. */
  lemma DownRing(list: seq<Addr>, ptr: map<Addr, Addr>, t: nat, bp: Addr, p: Addr, pb: Addr)
    requires Ascending(list) && t + 1 < |list| && list[t] == p && list[t + 1] == bp
    requires Ring(list, ptr[bp := pb][p := bp])
    ensures Ring(Drop(list, t + 1), ptr[bp := pb][p := pb])
  {
    assert p < bp;
    DropRing(list, ptr[bp := pb][p := bp], t);
    assert ptr[bp := pb][p := bp][p := pb] == ptr[bp := pb][p := pb];
  }

  /** FreedPtr runs round the list that free leaves. */
  lemma FreedRing(list: seq<Addr>, ptr: map<Addr, Addr>, t: nat, bp: Addr, up: bool, down: bool)
    requires Ring(list, ptr) && Ascending(list) && t < |list| && bp !in list && (up ==> t + 1 < |list|)
    requires Ascending(InsertAfter(list, t, bp))
    ensures var p, q := list[t], NextOf(list, t);
      var l1 := InsertAfter(list, t, bp);
      var l2 := if up then Drop(l1, t + 2) else l1;
      && p in ptr && q in ptr
      && Ring(if down then Drop(l2, t + 1) else l2, FreedPtr(ptr, bp, p, q, up, down))
  {
    var p, q, l1 := list[t], NextOf(list, t), InsertAfter(list, t, bp);
    UpRing(list, ptr, t, bp, up);
    if down {
      DownRing(if up then Drop(l1, t + 2) else l1, ptr, t, bp, p, if up then ptr[q] else q);
    }
  }

  lemma DropAscending(list: seq<Addr>, i: nat)
    requires Ascending(list) && i < |list|
    ensures Ascending(Drop(list, i))
  {
  }

  /** The header sizes after free's two if-statements. */
  function FreedSize(size: map<Addr, nat>, bp: Addr, p: Addr, q: Addr, up: bool, down: bool): (r: map<Addr, nat>)
    requires bp in size && p in size && (up ==> q in size)
  {
    var s := if up then size[bp := size[bp] + size[q]] else size;
    if down then s[p := s[p] + s[bp]] else s
  }

  ghost predicate SizesMatch(blocks: map<Addr, nat>, size: map<Addr, nat>) {
    forall b: Addr :: b in blocks ==> b in size && size[b] == blocks[b]
  }

  lemma MergedMatch(blocks: map<Addr, nat>, size: map<Addr, nat>, b: Addr, c: Addr)
    requires SizesMatch(blocks, size) && b in blocks && c in blocks && b != c
    ensures SizesMatch(Merged(blocks, b, c), size[b := size[b] + size[c]])
  {
  }

  /** free's header updates follow its merges, and the freed units end up in p or bp. */
  lemma FreedSizesMatch(blocks: map<Addr, nat>, size: map<Addr, nat>, bp: Addr, p: Addr, q: Addr, up: bool, down: bool)
    requires SizesMatch(blocks, size) && bp in blocks && p in size && bp != p
    requires up ==> q in blocks && q != bp && q != p
    requires down ==> p in blocks
    ensures up ==> q in size
    ensures var b2 := if up then Merged(blocks, bp, q) else blocks;
      && bp in b2 && (down ==> p in b2)
      && var b3 := if down then Merged(b2, p, bp) else b2;
      && SizesMatch(b3, FreedSize(size, bp, p, q, up, down))
      && (if down then p in b3 && b3[p] >= blocks[bp] else bp in b3 && b3[bp] >= blocks[bp])
  {
    var b2 := if up then Merged(blocks, bp, q) else blocks;
    var s2 := if up then size[bp := size[bp] + size[q]] else size;
    if up { MergedMatch(blocks, size, bp, q); }
    if down { MergedMatch(b2, s2, p, bp); }
  }

  /** free leaves headers that match the blocks, and p, with the freed units in p or right after it. */
  lemma FreedHeaders(a: Arena, heap: set<Addr>, bp: Addr, t: nat, p: Addr, q: Addr, up: bool, down: bool, size: map<Addr, nat>)
    requires Sound(a, heap) && bp in a.blocks && bp !in a.list && a.list[0] < bp && t == Slot(a.list, bp)
    requires p == a.list[t] && q == NextOf(a.list, t)
    requires up == (bp + a.blocks[bp] == q) && down == (t > 0 && p in a.blocks && p + a.blocks[p] == bp)
    requires SizesMatch(a.blocks, size) && p in size
    ensures up ==> q in size
    ensures var r := Freed(a, bp);
      && SizesMatch(r.blocks, FreedSize(size, bp, p, q, up, down))
      && t < |r.list| && r.list[t] == p
      && (down ==> p in r.blocks && r.blocks[p] >= a.blocks[bp])
      && (!down ==> bp in r.blocks && r.blocks[bp] >= a.blocks[bp])
  {
    FreedIs(a, heap, bp, t, p, q, up, down);
    FreedSizesMatch(a.blocks, size, bp, p, q, up, down);
  }

  /** What free's two comparisons mean, given headers that describe the arena. */
  lemma RelinkTests(a: Arena, heap: set<Addr>, base: Addr, bp: Addr, p: Addr, ptr: map<Addr, Addr>, size: map<Addr, nat>)
    requires Sound(a, heap) && a.list[0] == base && base < bp && bp in a.blocks && bp !in a.list
    requires Ring(a.list, ptr) && SizesMatch(a.blocks, size) && base in size && size[base] == 0
    requires p == a.list[Slot(a.list, bp)]
    ensures p in ptr && p in size && bp in size && p != bp
    ensures ptr[p] == NextOf(a.list, Slot(a.list, bp))
    ensures p + size[p] == bp <==> Slot(a.list, bp) > 0 && p in a.blocks && p + a.blocks[p] == bp
  {
    var t := Slot(a.list, bp);
    assert ptr[a.list[t]] == NextOf(a.list, t) && p in a.list;
    assert t == 0 ==> p == base;
    assert t > 0 ==> p in a.blocks;
  }

  /** After free the pointers run round the new list, and the freed units are at p or right after it. */
  lemma RelinkRing(a: Arena, heap: set<Addr>, bp: Addr, t: nat, p: Addr, q: Addr, up: bool, down: bool, ptr: map<Addr, Addr>)
    requires Sound(a, heap) && bp in a.blocks && bp !in a.list && a.list[0] < bp && t == Slot(a.list, bp)
    requires p == a.list[t] && q == NextOf(a.list, t)
    requires up == (bp + a.blocks[bp] == q) && down == (t > 0 && p in a.blocks && p + a.blocks[p] == bp)
    requires Ring(a.list, ptr)
    ensures p in ptr && q in ptr && (up ==> q != bp && q != p)
    ensures Ring(Freed(a, bp).list, FreedPtr(ptr, bp, p, q, up, down))
    ensures !down ==> FreedPtr(ptr, bp, p, q, up, down)[p] == bp
  {
    FreedIs(a, heap, bp, t, p, q, up, down);
    FreedRing(a.list, ptr, t, bp, up, down);
  }

  /** After free the headers match the blocks, the base header is empty, and the freed units are at p or bp. */
  lemma RelinkSizes(a: Arena, heap: set<Addr>, bp: Addr, t: nat, p: Addr, q: Addr, up: bool, down: bool, size: map<Addr, nat>)
    requires Sound(a, heap) && bp in a.blocks && bp !in a.list && a.list[0] < bp && t == Slot(a.list, bp)
    requires p == a.list[t] && q == NextOf(a.list, t)
    requires up == (bp + a.blocks[bp] == q) && down == (t > 0 && p in a.blocks && p + a.blocks[p] == bp)
    requires SizesMatch(a.blocks, size) && p in size && a.list[0] in size && size[a.list[0]] == 0
    ensures up ==> q in size
    ensures var r, size' := Freed(a, bp), FreedSize(size, bp, p, q, up, down);
      && SizesMatch(r.blocks, size') && a.list[0] in size' && size'[a.list[0]] == 0 && p in r.list
      && (if down then p in r.blocks && r.blocks[p] >= a.blocks[bp] else bp in r.blocks && r.blocks[bp] >= a.blocks[bp])
  {
    FreedHeaders(a, heap, bp, t, p, q, up, down, size);
    assert down ==> a.list[0] < a.list[t];
    assert Freed(a, bp).list[t] in Freed(a, bp).list;
  }

  /** All free blocks are smaller than n. */
  ghost predicate AllSmall(a: Arena, n: nat) {
    forall i {:trigger a.list[i]} :: 1 <= i < |a.list| ==> a.list[i] in a.blocks ==> a.blocks[a.list[i]] < n
  }

  /** Block b ends past bp's end, but by less than n, and begins no later than bp. */
  predicate Wraps(b: Addr, size: nat, bp: Addr, len: nat, n: nat) {
    b <= bp && bp + len <= b + size < bp + len + n
  }

  lemma DropOne(list: seq<Addr>, i: nat, b: Addr)
    requires i < |list| && Ascending(list)
    ensures Ascending(Drop(list, i)) && (b in Drop(list, i) ==> b in list && b != list[i])
  {
    DropMembers(list, i);
  }

  lemma DropTwoMembers(list: seq<Addr>, t: nat, bp: Addr, up: bool, down: bool, b: Addr)
    requires t < |list| && Ascending(InsertAfter(list, t, bp)) && (up ==> t + 1 < |list|)
    requires var l1 := InsertAfter(list, t, bp);
      var l2 := if up then Drop(l1, t + 2) else l1;
      b in if down then Drop(l2, t + 1) else l2
    ensures (b == bp || b in list) && (down ==> b != bp) && (up ==> b != list[t + 1])
  {
    var l1 := InsertAfter(list, t, bp);
    InsertMembers(list, t, bp);
    var l2 := if up then Drop(l1, t + 2) else l1;
    if up {
      DropOne(l1, t + 2, b);
    }
    if down {
      DropOne(l2, t + 1, b);
    }
  }

  /** The sizes that free's merges leave, when only the merged block can have n units. */
  lemma MergedFits(blocks: map<Addr, nat>, bp: Addr, p: Addr, q: Addr, up: bool, down: bool, n: nat, b: Addr)
    requires bp in blocks && (up ==> q in blocks && q != bp && q != p && q == bp + blocks[bp] && blocks[q] < n)
    requires down ==> p in blocks && p != bp && p + blocks[p] == bp
    requires n > 0 && (up ==> b != q) && (down ==> b != bp) && (b != bp && b in blocks ==> blocks[b] < n)
    requires var b2 := if up then Merged(blocks, bp, q) else blocks;
      var b3 := if down then Merged(b2, p, bp) else b2;
      b in b3 && b3[b] >= n
    ensures var b2 := if up then Merged(blocks, bp, q) else blocks;
      var b3 := if down then Merged(b2, p, bp) else b2;
      Wraps(b, b3[b], bp, blocks[bp], n)
  {
  }

  /** If no free block had n units before bp was freed, one that has them now begins no later than bp and ends less than n units after it. */
  lemma FreedFits(a: Arena, heap: set<Addr>, bp: Addr, n: nat, b: Addr)
    requires Sound(a, heap) && bp in a.blocks && bp !in a.list && a.list[0] < bp && AllSmall(a, n) && n > 0
    requires b in Freed(a, bp).list && b != a.list[0] && b in Freed(a, bp).blocks && Freed(a, bp).blocks[b] >= n
    ensures Wraps(b, Freed(a, bp).blocks[b], bp, a.blocks[bp], n)
  {
    var t := Slot(a.list, bp);
    var p, q := a.list[t], NextOf(a.list, t);
    var up, down := bp + a.blocks[bp] == q, t > 0 && p in a.blocks && p + a.blocks[p] == bp;
    FreedIs(a, heap, bp, t, p, q, up, down);
    DropTwoMembers(a.list, t, bp, up, down, b);
    if b != bp {
      var i :| 0 <= i < |a.list| && a.list[i] == b;
    }
    MergedFits(a.blocks, bp, p, q, up, down, n, b);
  }

  lemma PutBack(live: map<Addr, nat>, b: Addr, n: nat)
    ensures b !in live ==> live[b := n] - {b} == live && b in live[b := n]
  {
  }

  /** Free block b has n units. */
  ghost predicate Fits(a: Arena, b: Addr, n: nat) {
    |a.list| > 0 && b in a.list && b != a.list[0] && b in a.blocks && a.blocks[b] >= n
  }

  /** Every free block of n units contains the len units at bp, and ends less than n units after them. */
  ghost predicate OnlyFit(a: Arena, bp: Addr, len: nat, n: nat) {
    forall b: Addr {:trigger Fits(a, b, n)} :: Fits(a, b, n) ==> Wraps(b, a.blocks[b], bp, len, n)
  }

  /** Recording bp and freeing it leaves no other block of n units, if there was none before. */
  lemma GrownFits(a: Arena, heap: set<Addr>, bp: Addr, len: nat, n: nat)
    requires var a1 := a.(blocks := a.blocks[bp := len]);
      Sound(a1, heap) && Coalesced(a1) && bp !in a.list && a.list[0] < bp && n > 0
    requires AllSmall(a, n)
    ensures OnlyFit(Freed(a.(blocks := a.blocks[bp := len]), bp), bp, len, n)
  {
    var a1 := a.(blocks := a.blocks[bp := len]);
    FreedSound(a1, heap, bp);
    assert AllSmall(a1, n) by {
      forall i | 1 <= i < |a1.list| ensures a1.blocks[a1.list[i]] < n {
        assert a1.list[i] == a.list[i] && a.list[i] in a.list;
      }
    }
    forall b: Addr | Fits(Freed(a1, bp), b, n) ensures Wraps(b, Freed(a1, bp).blocks[b], bp, len, n) {
      FreedFits(a1, heap, bp, n, b);
    }
  }

  /**
   malloc cuts n units off the end of a block that contains the len units recorded at bp, of which
   sbrk gave the first `got`: it hands out obtained units only exactly if sbrk gave them all.
   */
  lemma CutObtained(heap: set<Addr>, owned: set<Addr>, bp: Addr, len: nat, got: nat, b: Addr, size: nat, n: nat)
    requires heap <= owned && Apart(owned, bp, len) && got <= len && 0 < n <= size && Wraps(b, size, bp, len, n)
    requires Range(b, size) <= heap + Range(bp, len)
    ensures Range(b + size - n, n) <= owned + Range(bp, got) <==> got == len
  {
    if got == len {
      forall u: Addr | u in Range(b + size - n, n) ensures u in owned + Range(bp, got) {
        assert u in Range(b, size);
      }
    } else {
      var last := bp + len - 1;
      assert last in Range(b + size - n, n) && last !in owned && last !in Range(bp, got);
    }
  }

  // ---- Allocating, on values ----

  lemma ExactSound(a: Arena, heap: set<Addr>, i: nat)
    requires Sound(a, heap) && Coalesced(a) && 1 <= i < |a.list|
    ensures var r := a.(list := Drop(a.list, i));
      && Sound(r, heap) && Coalesced(r) && r.list[0] == a.list[0]
      && a.list[i] !in Live(a) && Live(r) == Live(a)[a.list[i] := a.blocks[a.list[i]]]
  {
    var r := a.(list := Drop(a.list, i));
    DropMembers(a.list, i);
    forall j: nat ensures !Touch(r, j) {
      if 1 <= j < |r.list| - 1 {
        assert !Touch(a, if j < i then j else j + 1);
        if j == i - 1 {
          assert Block(a.blocks, a.list[j]) && Block(a.blocks, a.list[i]);
          assert a.list[j] < a.list[i] < a.list[i + 1];
        }
      }
    }
  }

  lemma SplitSound(a: Arena, heap: set<Addr>, i: nat, n: nat)
    requires Sound(a, heap) && Coalesced(a) && 1 <= i < |a.list| && 0 < n < a.blocks[a.list[i]]
    ensures var b := a.list[i];
      var tail := b + a.blocks[b] - n;
      var r := a.(blocks := Split(a.blocks, b, n));
      && Sound(r, heap) && Coalesced(r)
      && tail !in a.blocks && tail !in a.list && Live(r) == Live(a)[tail := n]
  {
    var b := a.list[i];
    var tail := b + a.blocks[b] - n;
    var r := a.(blocks := Split(a.blocks, b, n));
    SplitTiles(a.blocks, heap, b, n);
    assert tail !in a.list by {
      BaseBelow(a, heap, b);
    }
    forall j: nat ensures !Touch(r, j) {
      assert !Touch(a, j);
      if 1 <= j < |r.list| - 1 {
        assert Block(a.blocks, a.list[j]) && Block(a.blocks, a.list[j + 1]);
        assert a.list[j] < a.list[j + 1];
      }
    }
  }

  lemma GrowTouches(a: Arena, b: Addr, n: nat)
    requires Coalesced(a) && b !in a.list
    ensures Coalesced(a.(blocks := a.blocks[b := n]))
  {
    var r := a.(blocks := a.blocks[b := n]);
    forall i: nat ensures !Touch(r, i) {
      assert !Touch(a, i);
      if 1 <= i < |a.list| - 1 {
        assert a.list[i] in a.list && a.list[i + 1] in a.list;
      }
    }
  }

  /** Unlinking the whole free block after prevp. */
  lemma TakeExact(a: Arena, heap: set<Addr>, base: Addr, i: nat, ptr: map<Addr, Addr>, size: map<Addr, nat>)
    requires Sound(a, heap) && Coalesced(a) && a.list[0] == base && Ring(a.list, ptr) && SizesMatch(a.blocks, size)
    requires i + 1 < |a.list|
    ensures var p := a.list[i + 1];
      var r := a.(list := Drop(a.list, i + 1));
      && p in a.blocks && p in ptr
      && Sound(r, heap) && Coalesced(r) && r.list[0] == base && a.list[i] in r.list
      && Ring(r.list, ptr[a.list[i] := ptr[p]])
      && p !in Live(a) && Live(r) == Live(a)[p := a.blocks[p]]
  {
    ExactSound(a, heap, i + 1);
    DropRing(a.list, ptr, i);
    assert Drop(a.list, i + 1)[i] == a.list[i];
  }

  /** Cutting n units off the tail of the free block after prevp. */
  lemma TakeTail(a: Arena, heap: set<Addr>, base: Addr, i: nat, n: nat, size: map<Addr, nat>)
    requires Sound(a, heap) && Coalesced(a) && a.list[0] == base && SizesMatch(a.blocks, size)
    requires base in size && size[base] == 0
    requires i + 1 < |a.list| && a.list[i + 1] in a.blocks && 0 < n < a.blocks[a.list[i + 1]]
    ensures var p := a.list[i + 1];
      var tail := p + a.blocks[p] - n;
      var r := a.(blocks := Split(a.blocks, p, n));
      var size' := size[p := size[p] - n][tail := n];
      && Sound(r, heap) && Coalesced(r)
      && SizesMatch(r.blocks, size') && base in size' && size'[base] == 0
      && tail !in Live(a) && Live(r) == Live(a)[tail := n]
  {
    SplitSound(a, heap, i + 1, n);
    BaseBelow(a, heap, a.list[i + 1]);
  }

  /** Index i lies strictly between f and j, walking up from f and round. */
  predicate Between(f: nat, j: nat, i: nat) {
    if f < j then f < i < j else i > f || i < j
  }

  /** The place after i, round the list. */
  function Succ(list: seq<Addr>, i: nat): (j: nat)
    requires i < |list|
    ensures j < |list| && list[j] == NextOf(list, i)
  {
    if i + 1 < |list| then i + 1 else 0
  }

  /** Steps from place j up to place f, round a list of n. */
  function Distance(n: nat, j: nat, f: nat): (d: nat)
    requires j < n && f < n
  {
    if j <= f then f - j else f - j + n
  }

  class Heap {
    const base: Addr
    var ptr: map<Addr, Addr>
    var size: map<Addr, nat>
    var freep: Addr // 0 until the first malloc
    ghost var arena: Arena
    ghost var heap: set<Addr>  // units the headers account for
    ghost var owned: set<Addr> // units obtained from sbrk

    ghost predicate Valid()
      reads this
    {
      && base > 0
      && Sound(arena, heap) && Coalesced(arena) && arena.list[0] == base
      && SizesMatch(arena.blocks, size)
      && (freep == 0 ==> arena == Arena([base], map[]))
      && (freep != 0 ==> freep in arena.list && Ring(arena.list, ptr) && base in size && size[base] == 0)
    }

    constructor (base: Addr)
      requires base > 0
      ensures Valid() && this.base == base && Live(arena) == map[] && heap == owned == {}
    {
      this.base := base;
      ptr, size, freep := map[], map[], 0;
      arena, heap, owned := Arena([base], map[]), {}, {};
    }

    /** The block at freep or the one after it has n units. */
    ghost predicate NearFit(n: nat)
      reads this
    {
      && freep in ptr
      && ((freep in arena.blocks && arena.blocks[freep] >= n)
          || (ptr[freep] in arena.blocks && arena.blocks[ptr[freep]] >= n))
    }

    /** free's two if-statements: link bp in after p, merging it with both neighbours. */
    method LinkHeaders(bp: Addr, p: Addr)
      requires p in ptr && p in size && bp in size && p != bp
      requires bp + size[bp] == ptr[p] ==> ptr[p] in size && ptr[p] in ptr && ptr[p] != bp && ptr[p] != p
      modifies this`ptr, this`size
      ensures var up, down := bp + old(size)[bp] == old(ptr)[p], p + old(size)[p] == bp;
        && size == FreedSize(old(size), bp, p, old(ptr)[p], up, down)
        && ptr == FreedPtr(old(ptr), bp, p, old(ptr)[p], up, down)
    {
      if bp + size[bp] == ptr[p] {
        size := size[bp := size[bp] + size[ptr[p]]];
        ptr := ptr[bp := ptr[ptr[p]]];
      } else {
        ptr := ptr[bp := ptr[p]];
      }
      if p + size[p] == bp {
        size := size[p := size[p] + size[bp]];
        ptr := ptr[p := ptr[bp]];
      } else {
        ptr := ptr[p := bp];
      }
    }

    /** Relinking makes the headers describe the arena that free leaves. */
    method RelinkHeaders(bp: Addr, p: Addr)
      requires Valid() && freep != 0 && bp in Live(arena)
      requires arena.list[0] < bp && p == arena.list[Slot(arena.list, bp)]
      modifies this`ptr, this`size
      ensures var r := Freed(arena, bp);
        && Ring(r.list, ptr) && p in r.list && p in ptr && SizesMatch(r.blocks, size) && base in size && size[base] == 0
        && (|| (p in r.blocks && r.blocks[p] >= arena.blocks[bp])
            || (ptr[p] in r.blocks && r.blocks[ptr[p]] >= arena.blocks[bp]))
    {
      RelinkTests(arena, heap, base, bp, p, ptr, size);
      ghost var t, q := Slot(arena.list, bp), ptr[p];
      ghost var up, down := bp + size[bp] == q, p + size[p] == bp;
      RelinkRing(arena, heap, bp, t, p, q, up, down, ptr);
      RelinkSizes(arena, heap, bp, t, p, q, up, down, size);
      LinkHeaders(bp, p);
    }

    /** The second half of free. */
    method Relink(bp: Addr, p: Addr)
      requires Valid() && freep != 0 && bp in Live(arena)
      requires arena.list[0] < bp && p == arena.list[Slot(arena.list, bp)]
      modifies this
      ensures Valid() && freep == p && heap == old(heap) && owned == old(owned)
      ensures arena == Freed(old(arena), bp) && Live(arena) == old(Live(arena)) - {bp}
      ensures NearFit(old(arena.blocks)[bp])
    {
      FreedSound(arena, heap, bp);
      RelinkHeaders(bp, p);
      Settle(p, Freed(arena, bp));
    }

    /** freep = p, with the headers describing arena r. */
    method Settle(p: Addr, ghost r: Arena)
      requires base > 0 && Sound(r, heap) && Coalesced(r) && r.list[0] == base && Ring(r.list, ptr) && p in r.list
      requires SizesMatch(r.blocks, size) && base in size && size[base] == 0
      modifies this`freep, this`arena
      ensures Valid() && freep == p != 0 && arena == r
    {
      ghost var j :| 0 <= j < |r.list| && r.list[j] == p;
      freep := p;
      arena := r;
    }

    /** free: the block leaves the program, everything else of the program stays. */
    method Free(ap: Addr)
      requires Valid() && ap - 1 in Live(arena)
      modifies this
      ensures Valid() && freep != 0 && heap == old(heap) && owned == old(owned)
      ensures old(arena).list[0] < ap - 1 && arena == Freed(old(arena), ap - 1) && Live(arena) == old(Live(arena)) - {ap - 1}
      ensures NearFit(old(arena.blocks)[ap - 1])
    {
      var bp := ap - 1;
      BaseBelow(arena, heap, bp);
      ghost var list, t := arena.list, Slot(arena.list, bp);
      ghost var j: nat :| j < |list| && list[j] == freep;
      var p := freep;
      while !(bp > p && bp < ptr[p])
        invariant j < |list| && p == list[j]
        modifies {}
        decreases if j <= t then t - j else t - j + |list|
      {
        StopsAtSlot(list, bp, j);
        assert p in ptr && ptr[p] == NextOf(list, j);
        if p >= ptr[p] && (bp > p || bp < ptr[p]) {
          break;
        }
        p := ptr[p];
        j := if j + 1 < |list| then j + 1 else 0;
      }
      StopsAtSlot(list, bp, j);
      Relink(bp, p);
    }

    /** The fitting block after prevp goes to the program, whole or its tail; nothing else changes hands. */
    method Take(prevp: Addr, p0: Addr, nunits: nat, ghost i: nat) returns (p: Addr)
      requires Valid() && freep != 0 && i < |arena.list| && prevp == arena.list[i] && p0 == NextOf(arena.list, i)
      requires p0 in size && size[p0] >= nunits > 0
      modifies this
      ensures Valid() && freep != 0 && heap == old(heap) && owned == old(owned)
      ensures p > base && p !in old(Live(arena)) && Live(arena) == old(Live(arena))[p := nunits]
      ensures p + nunits == p0 + old(size)[p0]
    {
      assert i + 1 < |arena.list|;
      assert p0 in arena.blocks;
      p := p0;
      if size[p] == nunits {
        TakeExact(arena, heap, base, i, ptr, size);
        ptr := ptr[prevp := ptr[p]];
        arena := arena.(list := Drop(arena.list, i + 1));
      } else {
        TakeTail(arena, heap, base, i, nunits, size);
        ghost var blocks' := Split(arena.blocks, p, nunits);
        size := size[p := size[p] - nunits];
        p := p + size[p];
        size := size[p := nunits];
        arena := arena.(blocks := blocks');
      }
      freep := prevp;
      assert p in Live(arena);
      BaseBelow(arena, heap, p);
    }

    /** morecore; `more` is what sbrk returned, 0 for an error. */
    method MoreCore(nunits: nat, more: Addr) returns (p: Addr)
      requires Valid() && freep != 0
      requires more != 0 ==> more > base && Apart(heap, more, CoreUnits(nunits))
      modifies this
      ensures Valid() && freep != 0 && Live(arena) == old(Live(arena))
      ensures more == 0 ==> p == 0 && heap == old(heap) && owned == old(owned) && arena == old(arena)
      ensures more != 0 ==> p == freep && heap == old(heap) + Range(more, CoreUnits(nunits))
      ensures more != 0 ==> owned == old(owned) + Range(more, Granted(nunits))
      ensures more != 0 && old(NoFit(nunits)) && nunits > 0 ==> OnlyFit(arena, more, CoreUnits(nunits), nunits)
      ensures more != 0 ==> NearFit(nunits)
    {
      if more == 0 {
        return 0;
      }
      PutBack(Live(arena), more, CoreUnits(nunits));
      Obtain(nunits, more);
      Free(more + 1);
      return freep;
    }

    /** sbrk's units become a block of the size asked for, whatever sbrk was really asked for. */
    method Obtain(nunits: nat, more: Addr)
      requires Valid() && freep != 0 && more > base && Apart(heap, more, CoreUnits(nunits))
      modifies this`size, this`arena, this`heap, this`owned
      ensures Valid() && heap == old(heap) + Range(more, CoreUnits(nunits))
      ensures owned == old(owned) + Range(more, Granted(nunits))
      ensures Live(arena) == old(Live(arena))[more := CoreUnits(nunits)] && more !in old(Live(arena))
      ensures arena.list[0] < more
      ensures old(NoFit(nunits)) && nunits > 0 ==> OnlyFit(Freed(arena, more), more, CoreUnits(nunits), nunits)
    {
      ghost var was := arena;
      AddBlock(more, CoreUnits(nunits));
      owned := owned + Range(more, Granted(nunits));
      if AllSmall(was, nunits) && nunits > 0 {
        GrownFits(was, heap, more, CoreUnits(nunits), nunits);
      }
    }

    /** hp->s.size = nu: a new block, not on the free list. */
    method AddBlock(more: Addr, nu: nat)
      requires Valid() && freep != 0 && nu > 0 && more > base && Apart(heap, more, nu)
      modifies this`size, this`arena, this`heap
      ensures Valid() && arena == old(arena).(blocks := old(arena).blocks[more := nu]) && heap == old(heap) + Range(more, nu)
      ensures more !in old(Live(arena)) && more !in arena.list && Live(arena) == old(Live(arena))[more := nu]
    {
      GrowTiles(arena.blocks, heap, more, nu);
      forall i | 0 <= i < |arena.list| ensures arena.list[i] != more {
      }
      size := size[more := nu];
      arena := arena.(blocks := arena.blocks[more := nu]);
      heap := heap + Range(more, nu);
      GrowTouches(old(arena), more, nu);
    }

    /** No free block is large enough. */
    ghost predicate NoFit(nunits: nat)
      reads this
    {
      AllSmall(arena, nunits)
    }

    /**
     malloc's search from freep: it stops at the first block that fits, or at freep after
     having looked at every block once.  `i` is where prevp stands on the list.
     */
    method Walk(nunits: nat) returns (prevp: Addr, p: Addr, ghost i: nat)
      requires Valid() && freep != 0 && nunits > 0
      ensures i < |arena.list| && prevp == arena.list[i] && p == NextOf(arena.list, i) && p in size
      ensures size[p] >= nunits <==> !NoFit(nunits)
      ensures size[p] < nunits ==> p == freep
    {
      ghost var list := arena.list;
      ghost var f: nat :| f < |list| && list[f] == freep;
      prevp, p, i := freep, ptr[freep], f;
      assert p == NextOf(list, i);
      SizeAt(Succ(list, i));
      while size[p] < nunits && p != freep
        invariant i < |list| && prevp == list[i] && p == NextOf(list, i) && p in size
        invariant forall k :: 0 <= k < |list| && Between(f, Succ(list, i), k) ==> list[k] in size && size[list[k]] < nunits
        decreases Distance(|list|, Succ(list, i), f)
      {
        i := Succ(list, i);
        prevp, p := p, ptr[p];
        assert p == NextOf(list, i);
        SizeAt(Succ(list, i));
      }
      if size[p] < nunits {
        assert Succ(list, i) == f;
        forall k | 1 <= k < |list| ensures size[list[k]] < nunits {
          assert k != f ==> Between(f, f, k);
        }
      } else {
        assert Succ(list, i) != 0 && list[Succ(list, i)] in arena.blocks;
      }
    }

    /** Every element of the list has a header size: its block's, or 0 for base. */
    lemma SizeAt(k: nat)
      requires Valid() && freep != 0 && k < |arena.list|
      ensures arena.list[k] in size
      ensures size[arena.list[k]] == if k == 0 then 0 else arena.blocks[arena.list[k]]
    {
    }

    /** The first call makes the list of the base header alone. */
    method Setup()
      requires Valid()
      modifies this`ptr, this`freep, this`size
      ensures Valid() && freep != 0
    {
      if freep == 0 {
        ptr := ptr[base := base];
        freep := base;
        size := size[base := 0];
      }
    }

    /** malloc's loop: a block that fits, from morecore if there was none; p is 0 if morecore failed. */
    method Search(nbytes: nat, more: Addr) returns (prevp: Addr, p: Addr, ghost i: nat)
      requires Valid() && freep != 0 && nbytes < 0x1_0000_0000
      requires more != 0 ==> more > base && Apart(heap + owned, more, CoreUnits(Units(nbytes)))
      modifies this
      ensures Valid() && freep != 0 && Live(arena) == old(Live(arena))
      ensures p == 0 <==> old(NoFit(Units(nbytes))) && more == 0
      ensures p != 0 ==> i < |arena.list| && prevp == arena.list[i] && p == NextOf(arena.list, i) && p in size && size[p] >= Units(nbytes)
      ensures heap == if old(NoFit(Units(nbytes))) && more != 0
        then old(heap) + Range(more, CoreUnits(Units(nbytes))) else old(heap)
      ensures owned == if old(NoFit(Units(nbytes))) && more != 0
        then old(owned) + Range(more, Granted(Units(nbytes))) else old(owned)
      ensures p != 0 && old(heap <= owned) ==>
        (Range(p + size[p] - Units(nbytes), Units(nbytes)) <= owned <==> nbytes <= MAXREQUEST || !old(NoFit(Units(nbytes))))
    {
      var nunits := Units(nbytes);
      prevp, p, i := Walk(nunits);
      if size[p] < nunits {
        p := MoreCore(nunits, more);
        if p != 0 {
          prevp, p, i := Walk(nunits);
          FitFound(nunits);
          FitIsObtained(old(heap), old(owned), nbytes, more, i);
        }
      } else {
        FitIsHeap(i, nunits);
      }
    }

    /**
     malloc; `more` is what sbrk returns if it is called, 0 for an error.  A success hands out a
     block of exactly the units needed that the program did not hold and takes nothing away; sbrk
     is used, once, only if no free block fits, and the call fails only if sbrk then fails.  The
     block consists of units obtained from sbrk exactly if a free block fitted or the request is at
     most MAXREQUEST.
     */
    method Malloc(nbytes: nat, more: Addr) returns (r: Addr)
      requires Valid() && nbytes < 0x1_0000_0000
      requires more != 0 ==> more > base && Apart(heap + owned, more, CoreUnits(Units(nbytes)))
      modifies this
      ensures Valid()
      ensures r == 0 <==> old(NoFit(Units(nbytes))) && more == 0
      ensures r == 0 ==> Live(arena) == old(Live(arena))
      ensures r != 0 ==> r - 1 !in old(Live(arena)) && Live(arena) == old(Live(arena))[r - 1 := Units(nbytes)]
      ensures heap == if old(NoFit(Units(nbytes))) && more != 0
        then old(heap) + Range(more, CoreUnits(Units(nbytes))) else old(heap)
      ensures owned == if old(NoFit(Units(nbytes))) && more != 0
        then old(owned) + Range(more, Granted(Units(nbytes))) else old(owned)
      ensures r != 0 && old(heap <= owned) ==>
        (Range(r - 1, Units(nbytes)) <= owned <==> nbytes <= MAXREQUEST || !old(NoFit(Units(nbytes))))
    {
      Setup();
      var prevp, p;
      ghost var i;
      prevp, p, i := Search(nbytes, more);
      if p == 0 {
        return 0;
      }
      p := Take(prevp, p, Units(nbytes), i);
      r := p + 1;
    }

    /** The units of the block after place i are accounted for. */
    lemma FitIsHeap(i: nat, n: nat)
      requires Valid() && freep != 0 && i < |arena.list| && n > 0
      requires var p := NextOf(arena.list, i); p in size && size[p] >= n
      ensures var p := NextOf(arena.list, i);
        && Fits(arena, p, n) && arena.blocks[p] == size[p]
        && Range(p, size[p]) <= heap && Range(p + size[p] - n, n) <= heap
    {
      SizeAt(Succ(arena.list, i));
      var p := NextOf(arena.list, i);
      forall u: Addr | u in Range(p, size[p]) ensures u in heap {
        assert Covers(arena.blocks, p, u);
      }
    }

    /** After morecore, the units that Take will cut off the block after place i. */
    lemma FitIsObtained(was: set<Addr>, had: set<Addr>, nbytes: nat, more: Addr, i: nat)
      requires Valid() && freep != 0 && i < |arena.list| && nbytes < 0x1_0000_0000
      requires var p := NextOf(arena.list, i); p in size && size[p] >= Units(nbytes)
      requires OnlyFit(arena, more, CoreUnits(Units(nbytes)), Units(nbytes)) && Apart(was + had, more, CoreUnits(Units(nbytes)))
      requires heap == was + Range(more, CoreUnits(Units(nbytes))) && owned == had + Range(more, Granted(Units(nbytes)))
      ensures var p := NextOf(arena.list, i);
        was <= had ==> (Range(p + size[p] - Units(nbytes), Units(nbytes)) <= owned <==> nbytes <= MAXREQUEST)
    {
      var p, n := NextOf(arena.list, i), Units(nbytes);
      FitIsHeap(i, n);
      GrantedAll(nbytes);
      if was <= had {
        CutObtained(was, had, more, CoreUnits(n), Granted(n), p, size[p], n);
      }
    }

    /** A block that fits at freep or right after it refutes NoFit. */
    lemma FitFound(nunits: nat)
      requires Valid() && freep != 0 && nunits > 0
      requires NearFit(nunits)
      ensures !NoFit(nunits)
    {
      var f: nat :| f < |arena.list| && arena.list[f] == freep;
      assert ptr[freep] == NextOf(arena.list, f);
      SizeAt(f);
      SizeAt(Succ(arena.list, f));
      assert arena.list[Succ(arena.list, f)] == ptr[freep];
    }
  }
}
