/**
 The buffer cache of kernel/bio.c.  The buffers and the disk form a table with
 three ghost parts: `truth` gives the latest contents of every disk block,
 whether written through or only logged; `index` names the one buffer that caches
 a block of a nonzero device; `refs` has a block once for every reference that
 was handed out and not given back.
 */
module Bio {
  import opened Counting
  import opened Lru

  const NBUF: nat := 30
  const ROOTDEV: nat := 1

  type Block = seq<int>

  datatype Key = Key(dev: nat, block: nat)

  datatype Buf = Buf(dev: nat, block: nat, valid: bool, refcnt: nat, data: Block)

  function KeyOf(b: Buf): (k: Key) {
    Key(b.dev, b.block)
  }

  datatype Table = Table(
    bufs: seq<Buf>, disk: map<Key, Block>, index: map<Key, nat>, truth: map<Key, Block>, refs: multiset<Key>)

  // ---- Cache against disk ----

  /** Buffer b has a block to itself, its contents if it has any, and counts the references to it. */
  ghost predicate SlotOk(t: Table, b: nat)
    requires b < |t.bufs|
  {
    var x := t.bufs[b];
    if x.dev == 0 then x.refcnt == 0
    else
      && KeyOf(x) in t.index && t.index[KeyOf(x)] == b && KeyOf(x) in t.truth
      && (x.valid ==> x.data == t.truth[KeyOf(x)]) && x.refcnt == t.refs[KeyOf(x)]
  }

  /** The buffer that caches block k is where the index says, and nobody refers to an uncached block. */
  ghost predicate PlaceOk(t: Table, k: Key) {
    && (k in t.index ==> k.dev != 0 && t.index[k] < |t.bufs| && KeyOf(t.bufs[t.index[k]]) == k)
    && (k in t.refs ==> k in t.index)
  }

  ghost predicate Sound(t: Table) {
    && |t.bufs| == NBUF && t.truth.Keys == t.disk.Keys
    && (forall b: nat {:trigger SlotOk(t, b)} :: b < |t.bufs| ==> SlotOk(t, b))
    && (forall k {:trigger PlaceOk(t, k)} :: PlaceOk(t, k))
  }

  /** The latest contents of block k are on disk or in a buffer that somebody refers to. */
  ghost predicate SafeAt(t: Table, k: Key) {
    k in t.truth && k in t.disk ==>
      t.truth[k] == t.disk[k] || (k in t.refs && k in t.index && t.index[k] < |t.bufs| && t.bufs[t.index[k]].valid)
  }

  /** No block's latest contents can be lost by recycling an unused buffer. */
  ghost predicate Safe(t: Table) {
    Sound(t) && forall k {:trigger SafeAt(t, k)} :: SafeAt(t, k)
  }

  // ---- What the operations do to the table ----

  /** One more reference to buffer b's block. */
  function Referenced(t: Table, b: nat): (r: Table)
    requires b < |t.bufs|
    ensures r.disk == t.disk && r.truth == t.truth
  {
    t.(bufs := t.bufs[b := t.bufs[b].(refcnt := t.bufs[b].refcnt + 1)], refs := t.refs + multiset{KeyOf(t.bufs[b])})
  }

  /** One reference less to buffer b's block. */
  function Dropped(t: Table, b: nat): (r: Table)
    requires b < |t.bufs| && t.bufs[b].refcnt > 0
    ensures r.disk == t.disk && r.truth == t.truth
  {
    t.(bufs := t.bufs[b := t.bufs[b].(refcnt := t.bufs[b].refcnt - 1)], refs := t.refs - multiset{KeyOf(t.bufs[b])})
  }

  /** Buffer b given to block k, with one reference and nothing read yet. */
  function Recycled(t: Table, b: nat, k: Key): (r: Table)
    requires b < |t.bufs|
    ensures r.disk == t.disk && r.truth == t.truth
  {
    t.(bufs := t.bufs[b := Buf(k.dev, k.block, false, 1, t.bufs[b].data)],
       index := (t.index - {KeyOf(t.bufs[b])})[k := b], refs := t.refs + multiset{k})
  }

  /** Buffer b filled from disk, unless it has its contents already. */
  function Loaded(t: Table, b: nat): (r: Table)
    requires b < |t.bufs| && KeyOf(t.bufs[b]) in t.disk
    ensures r.disk == t.disk && r.truth == t.truth
  {
    if t.bufs[b].valid then t else t.(bufs := t.bufs[b := t.bufs[b].(data := t.disk[KeyOf(t.bufs[b])], valid := true)])
  }

  /** New contents for the block that buffer b caches. */
  function Edited(t: Table, b: nat, v: Block): (r: Table)
    requires b < |t.bufs|
    ensures r.disk == t.disk && r.refs == t.refs
  {
    t.(bufs := t.bufs[b := t.bufs[b].(data := v)], truth := t.truth[KeyOf(t.bufs[b]) := v])
  }

  /** Buffer b written to disk. */
  function Saved(t: Table, b: nat): (r: Table)
    requires b < |t.bufs|
  {
    t.(disk := t.disk[KeyOf(t.bufs[b]) := t.bufs[b].data])
  }

  lemma ReferencedSafe(t: Table, b: nat)
    requires Safe(t) && b < NBUF && t.bufs[b].dev != 0
    ensures Safe(Referenced(t, b))
  {
    var t' := Referenced(t, b);
    assert SlotOk(t, b);
    forall c: nat | c < NBUF ensures SlotOk(t', c) { assert SlotOk(t, c); }
    forall k ensures PlaceOk(t', k) && SafeAt(t', k) { assert PlaceOk(t, k) && SafeAt(t, k); }
  }

  lemma RecycledSound(t: Table, b: nat, k: Key)
    requires Sound(t) && b < NBUF && t.bufs[b].refcnt == 0 && k !in t.index && k.dev != 0 && k in t.truth
    ensures Sound(Recycled(t, b, k))
  {
    var t' := Recycled(t, b, k);
    assert SlotOk(t, b) && PlaceOk(t, k);
    forall c: nat | c < NBUF ensures SlotOk(t', c) {
      assert SlotOk(t, c);
      if c != b && t.bufs[c].dev != 0 { assert PlaceOk(t, KeyOf(t.bufs[c])); }
    }
    forall q ensures PlaceOk(t', q) { assert PlaceOk(t, q); }
  }

  /** An unused buffer can be recycled: nothing is lost. */
  lemma RecycledSafe(t: Table, b: nat, k: Key)
    requires Safe(t) && b < NBUF && t.bufs[b].refcnt == 0 && k !in t.index && k.dev != 0 && k in t.truth
    ensures Safe(Recycled(t, b, k))
  {
    RecycledSound(t, b, k);
    assert SlotOk(t, b) && SafeAt(t, k);
    forall q ensures SafeAt(Recycled(t, b, k), q) { assert PlaceOk(t, q) && SafeAt(t, q); }
  }

  lemma LoadedSafe(t: Table, b: nat)
    requires Safe(t) && b < NBUF && t.bufs[b].refcnt > 0
    ensures KeyOf(t.bufs[b]) in t.disk && Safe(Loaded(t, b))
    ensures Loaded(t, b).bufs[b].data == t.truth[KeyOf(t.bufs[b])]
  {
    assert SlotOk(t, b);
    var t', key := Loaded(t, b), KeyOf(t.bufs[b]);
    assert SafeAt(t, key);
    forall c: nat | c < NBUF ensures SlotOk(t', c) { assert SlotOk(t, c); }
    forall k ensures PlaceOk(t', k) && SafeAt(t', k) { assert PlaceOk(t, k) && SafeAt(t, k); }
  }

  lemma EditedSafe(t: Table, b: nat, v: Block)
    requires Safe(t) && b < NBUF && t.bufs[b].valid && t.bufs[b].refcnt > 0
    ensures Safe(Edited(t, b, v))
  {
    var t' := Edited(t, b, v);
    assert SlotOk(t, b);
    forall c: nat | c < NBUF ensures SlotOk(t', c) { assert SlotOk(t, c); }
    forall k ensures PlaceOk(t', k) && SafeAt(t', k) { assert PlaceOk(t, k) && SafeAt(t, k); }
  }

  lemma SavedSafe(t: Table, b: nat)
    requires Safe(t) && b < NBUF && t.bufs[b].dev != 0 && t.bufs[b].valid
    ensures Safe(Saved(t, b))
    ensures var k := KeyOf(t.bufs[b]); k in t.truth && Saved(t, b).disk[k] == t.truth[k]
  {
    var t' := Saved(t, b);
    assert SlotOk(t, b);
    forall c: nat | c < NBUF ensures SlotOk(t', c) { assert SlotOk(t, c); }
    forall k ensures PlaceOk(t', k) && SafeAt(t', k) { assert PlaceOk(t, k) && SafeAt(t, k); }
  }

  /** A reference to block k may go: another one is left, or the latest contents are on disk. */
  predicate Spare(t: Table, k: Key) {
    t.refs[k] != 1 || (k in t.disk && k in t.truth && t.disk[k] == t.truth[k])
  }

  /** Giving a reference back keeps the cache safe exactly if it may go. */
  lemma DroppedSafe(t: Table, b: nat)
    requires Safe(t) && b < NBUF && t.bufs[b].refcnt > 0
    ensures Sound(Dropped(t, b))
    ensures Safe(Dropped(t, b)) <==> Spare(t, KeyOf(t.bufs[b]))
  {
    var t', key := Dropped(t, b), KeyOf(t.bufs[b]);
    assert SlotOk(t, b);
    forall c: nat | c < NBUF ensures SlotOk(t', c) { assert SlotOk(t, c); }
    forall k ensures PlaceOk(t', k) && (k != key || Spare(t, key) ==> SafeAt(t', k)) { assert PlaceOk(t, k) && SafeAt(t, k); }
    assert SafeAt(t', key) ==> Spare(t, key);
  }

  // ---- The list ----

  /** The list holds every buffer and the head, node NBUF, first. */
  ghost predicate ListOk(next: seq<nat>, prev: seq<nat>, ring: seq<nat>) {
    && RingOk(next, prev, ring) && |next| == NBUF + 1 && ring[0] == NBUF
    && forall b: nat :: b < NBUF ==> b in ring
  }

  /** Node i of the list was released no earlier than node j. */
  ghost predicate Younger(ring: seq<nat>, released: seq<nat>, i: nat, j: nat)
    requires i < |ring| && j < |ring|
  {
    ring[i] < |released| && ring[j] < |released| && released[ring[i]] >= released[ring[j]]
  }

  /** Buffers nearer the head were released to zero more recently. */
  ghost predicate Aged(ring: seq<nat>, released: seq<nat>, clock: nat) {
    && (forall t :: t in released ==> t <= clock)
    && (forall i: nat, j: nat {:trigger Younger(ring, released, i, j)} :: 1 <= i <= j < |ring| ==> Younger(ring, released, i, j))
  }

  /** Buffer b has been released at time `now`, which puts it first. */
  ghost predicate JustReleased(ring: seq<nat>, was: seq<nat>, released: seq<nat>, b: nat, now: nat) {
    |ring| > 1 && ring[1] == b && b < |was| && released == was[b := now]
  }

  /** The list with the node at p moved behind the head. */
  ghost function Front(ring: seq<nat>, p: nat): (r: seq<nat>)
    requires 0 < p < |ring|
  {
    Behind(Without(ring, p), ring[p])
  }

  lemma FrontOk(next: seq<nat>, prev: seq<nat>, ring: seq<nat>, p: nat)
    requires ListOk(next, prev, ring) && 0 < p < |ring|
    ensures ring[p] < |next| && next[ring[p]] < |prev| && prev[ring[p]] < |next|
    ensures var b := ring[p];
      var n, q := next[prev[b] := next[b]], prev[next[b] := prev[b]];
      && n[NBUF] < |q|
      && ListOk(n[b := n[NBUF]][NBUF := b], q[b := NBUF][n[NBUF] := b], Front(ring, p))
  {
    var b := ring[p];
    Unlink(next, prev, ring, p);
    var n, q, r := next[prev[b] := next[b]], prev[next[b] := prev[b]], Without(ring, p);
    assert r[0] == ring[0];
    Insert(n, q, r, b);
    forall c: nat | c < NBUF ensures c in Front(ring, p) {
      assert c in ring;
      var i :| 0 <= i < |ring| && ring[i] == c;
      if i < p {
        assert r[i] == c && Front(ring, p)[if i == 0 then 0 else i + 1] == c;
      } else if i == p {
        assert Front(ring, p)[1] == c;
      } else {
        assert r[i - 1] == c && Front(ring, p)[i] == c;
      }
    }
  }

  lemma BehindHas(ring: seq<nat>, b: nat)
    requires 0 < |ring|
    ensures forall c: nat :: c == b || c in ring ==> c in Behind(ring, b)
  {
    forall c: nat | c == b || c in ring ensures c in Behind(ring, b) {
      if c == b {
        assert Behind(ring, b)[1] == b;
      } else {
        var i :| 0 <= i < |ring| && ring[i] == c;
        assert Behind(ring, b)[if i == 0 then 0 else i + 1] == c;
      }
    }
  }

  lemma FrontAged(ring: seq<nat>, released: seq<nat>, clock: nat, p: nat)
    requires Aged(ring, released, clock) && Distinct(ring) && 0 < p < |ring| && ring[p] < |released|
    ensures Aged(Front(ring, p), released[ring[p] := clock + 1], clock + 1)
  {
    var f, b := Front(ring, p), ring[p];
    var released' := released[b := clock + 1];
    forall i: nat, j: nat | 1 <= i <= j < |f| ensures Younger(f, released', i, j) {
      if j >= 2 {
        var at := if j - 1 < p then j - 1 else j;
        assert f[j] == ring[at] && f[j] != b && Younger(ring, released, at, at) && released[ring[at]] in released;
      }
      if i >= 2 {
        assert Younger(ring, released, if i - 1 < p then i - 1 else i, if j - 1 < p then j - 1 else j);
      }
    }
    forall t | t in released' ensures t <= clock + 1 {
      var i :| 0 <= i < |released'| && released'[i] == t;
      assert i != b ==> released[i] in released;
    }
  }

  // ---- Running out of buffers ----

  lemma {:induction false} OneEach(keys: set<Key>, index: map<Key, nat>)
    requires forall k :: k in keys ==> k in index
    requires forall k, q :: k in keys && q in keys && index[k] == index[q] ==> k == q
    ensures |set k | k in keys :: index[k]| == |keys|
    decreases keys
  {
    if keys == {} {
      assert (set k | k in keys :: index[k]) == {};
    } else {
      var k :| k in keys;
      OneEach(keys - {k}, index);
      assert (set q | q in keys :: index[q]) == (set q | q in keys - {k} :: index[q]) + {index[k]};
    }
  }

  /** The blocks that somebody refers to. */
  ghost function InUse(refs: multiset<Key>): (keys: set<Key>) {
    set k | k in refs
  }

  /** The buffers of the blocks in use are the buffers in use. */
  lemma Used(t: Table, at: set<nat>)
    requires Sound(t) && at == set k | k in t.refs && k in t.index :: t.index[k]
    ensures forall b: nat :: b in at <==> b < NBUF && t.bufs[b].refcnt > 0
    ensures |at| == |InUse(t.refs)|
  {
    forall k | k in t.refs ensures k in t.index && t.index[k] < NBUF && KeyOf(t.bufs[t.index[k]]) == k && k.dev != 0 {
      assert PlaceOk(t, k);
    }
    forall b: nat ensures b in at <==> b < NBUF && t.bufs[b].refcnt > 0 {
      if b < NBUF {
        assert SlotOk(t, b);
        assert t.bufs[b].refcnt > 0 ==> KeyOf(t.bufs[b]) in t.refs;
      }
      if b in at {
        var k :| k in t.refs && k in t.index && t.index[k] == b;
        assert KeyOf(t.bufs[b]) == k && k.dev != 0;
      }
    }
    OneEach(InUse(t.refs), t.index);
    assert at == set k | k in InUse(t.refs) :: t.index[k];
  }

  /** Every buffer is in use exactly when as many blocks as there are buffers are referred to. */
  lemma AllInUse(t: Table)
    requires Sound(t)
    ensures |InUse(t.refs)| <= NBUF
    ensures |InUse(t.refs)| == NBUF <==> forall b :: 0 <= b < NBUF ==> t.bufs[b].refcnt > 0
  {
    var at := set k | k in t.refs && k in t.index :: t.index[k];
    Used(t, at);
    FullBelow(at, |t.bufs|);
  }

  /** bget cannot have a buffer for block k: nobody refers to k, and every buffer is in use. */
  ghost predicate NoBuffer(t: Table, k: Key) {
    k !in t.refs && |InUse(t.refs)| == NBUF
  }

  /** A cached block that nobody refers to leaves a buffer unused. */
  lemma CachedHasBuffer(t: Table, k: Key)
    requires Sound(t) && k in t.index
    ensures !NoBuffer(t, k)
  {
    assert PlaceOk(t, k) && SlotOk(t, t.index[k]);
    AllInUse(t);
  }

  class Cache {
    var next: seq<nat>
    var prev: seq<nat>
    var bufs: seq<Buf>
    var disk: map<Key, Block>
    ghost var ring: seq<nat>
    ghost var released: seq<nat>
    ghost var clock: nat
    ghost var index: map<Key, nat>
    ghost var truth: map<Key, Block>
    ghost var refs: multiset<Key>

    ghost function Value(): (t: Table)
      reads `bufs, `disk, `index, `truth, `refs
    {
      Table(bufs, disk, index, truth, refs)
    }

    ghost predicate Listed()
      reads `next, `prev, `ring, `released, `clock
    {
      |released| == NBUF && ListOk(next, prev, ring) && Aged(ring, released, clock)
    }

    ghost predicate Ok()
      reads this
    {
      Safe(Value()) && Listed()
    }

    /** binit: an empty cache over a disk. */
    constructor (disk: map<Key, Block>)
      ensures Ok() && this.disk == disk && truth == disk && refs == multiset{}
    {
      this.disk, truth, index, refs := disk, disk, map[], multiset{};
      bufs := seq(NBUF, _ => Buf(0, 0, false, 0, []));
      released, clock := seq(NBUF, _ => 0), 0;
      next, prev, ring := seq(NBUF + 1, _ => NBUF), seq(NBUF + 1, _ => NBUF), [NBUF];
      new;
      assert Safe(Value());
      for b := 0 to NBUF
        invariant RingOk(next, prev, ring) && |next| == NBUF + 1 && ring[0] == NBUF
        invariant forall i :: 1 <= i < |ring| ==> ring[i] < b
        invariant forall c: nat :: c < b ==> c in ring
        invariant Value() == Table(seq(NBUF, _ => Buf(0, 0, false, 0, [])), disk, map[], disk, multiset{})
        invariant released == seq(NBUF, _ => 0) && clock == 0
      {
        InsertFirst(b);
      }
    }

    /** Puts node b behind the head. */
    method InsertFirst(b: nat)
      requires RingOk(next, prev, ring) && |next| == NBUF + 1 && ring[0] == NBUF && b < NBUF
      requires forall i :: 1 <= i < |ring| ==> ring[i] < b
      requires forall c: nat :: c < b ==> c in ring
      modifies `next, `prev, `ring
      ensures RingOk(next, prev, ring) && |next| == NBUF + 1 && ring[0] == NBUF
      ensures forall i :: 1 <= i < |ring| ==> ring[i] < b + 1
      ensures forall c: nat :: c < b + 1 ==> c in ring
    {
      Insert(next, prev, ring, b);
      BehindHas(ring, b);
      next := next[b := next[NBUF]];
      prev := prev[b := NBUF];
      prev := prev[next[NBUF] := b];
      next := next[NBUF := b];
      ring := Behind(ring, b);
    }

    /** The buffer that caches k, NBUF if none: a walk along next. */
    method Find(k: Key) returns (b: nat)
      requires Ok() && k.dev != 0
      ensures b <= NBUF && (b < NBUF <==> k in index)
      ensures b < NBUF ==> KeyOf(bufs[b]) == k && index[k] == b
    {
      assert Linked(next, prev, ring, 0);
      b := next[NBUF];
      ghost var i := 1;
      assert 1 < |ring| ==> ring[1] != ring[0];
      while b != NBUF
        invariant 1 <= i <= |ring| && b == (if i < |ring| then ring[i] else NBUF) && (b == NBUF <==> i == |ring|)
        invariant forall j :: 1 <= j < i ==> KeyOf(bufs[ring[j]]) != k
        decreases |ring| - i
      {
        if bufs[b].dev == k.dev && bufs[b].block == k.block {
          assert SlotOk(Value(), b);
          return;
        }
        assert Linked(next, prev, ring, i);
        b := next[b];
        i := i + 1;
        assert i < |ring| ==> ring[i] != ring[0];
      }
      forall q | q in index ensures q != k {
        assert PlaceOk(Value(), q) && index[q] in ring;
        var j :| 0 <= j < |ring| && ring[j] == index[q];
      }
    }

    /** The least recently released unused buffer, NBUF if none: a walk along prev. */
    method Victim() returns (b: nat)
      requires Ok()
      ensures b <= NBUF && (b == NBUF <==> forall c :: 0 <= c < NBUF ==> bufs[c].refcnt > 0)
      ensures b < NBUF ==> bufs[b].refcnt == 0
      ensures b < NBUF ==> forall c :: 0 <= c < NBUF && bufs[c].refcnt == 0 ==> released[b] <= released[c]
    {
      ghost var i := |ring| - 1;
      assert Linked(next, prev, ring, i) && (i > 0 ==> ring[i] != ring[0]);
      b := prev[NBUF];
      while b != NBUF
        invariant 0 <= i < |ring| && b == ring[i] && (b == NBUF <==> i == 0)
        invariant forall j :: i < j < |ring| ==> bufs[ring[j]].refcnt > 0
        decreases i
      {
        if bufs[b].refcnt == 0 {
          forall c | 0 <= c < NBUF && bufs[c].refcnt == 0 ensures released[b] <= released[c] {
            assert c in ring;
            var j :| 0 <= j < |ring| && ring[j] == c;
            assert Younger(ring, released, j, i);
          }
          return;
        }
        assert Linked(next, prev, ring, i - 1);
        b := prev[b];
        i := i - 1;
        assert i > 0 ==> ring[i] != ring[0];
      }
      forall c | 0 <= c < NBUF ensures bufs[c].refcnt > 0 {
        assert c in ring;
        var j :| 0 <= j < |ring| && ring[j] == c;
      }
    }

    /**
     A buffer for block k: the one that has it, or else the least recently
     released unused one.  ok is false where the kernel panics: nobody refers to
     k and as many other blocks are in use as there are buffers.
     */
    method Bget(k: Key) returns (ok: bool, b: nat)
      requires Ok() && k.dev != 0 && k in truth
      modifies `bufs, `index, `refs
      ensures Ok() && ok == !NoBuffer(old(Value()), k)
      ensures !ok ==> Value() == old(Value())
      ensures ok ==> b < NBUF && KeyOf(bufs[b]) == k
      ensures ok && KeyOf(old(bufs)[b]) == k ==> Value() == Referenced(old(Value()), b)
      ensures ok && KeyOf(old(bufs)[b]) != k ==>
        && old(bufs)[b].refcnt == 0 && k !in old(index) && Value() == Recycled(old(Value()), b, k)
        && forall c :: 0 <= c < NBUF && old(bufs)[c].refcnt == 0 ==> released[b] <= released[c]
    {
      AllInUse(Value());
      b := Find(k);
      if b != NBUF {
        CachedHasBuffer(Value(), k);
        Bpin(b);
        return true, b;
      }
      assert PlaceOk(Value(), k);
      b := Victim();
      if b == NBUF {
        return false, b;
      }
      assert SlotOk(Value(), b);
      Recycle(b, k);
      ok := true;
    }

    /** Gives the unused buffer b to block k. */
    method Recycle(b: nat, k: Key)
      requires Ok() && b < NBUF && bufs[b].refcnt == 0 && k !in index && k.dev != 0 && k in truth
      modifies `bufs, `index, `refs
      ensures Ok() && Value() == Recycled(old(Value()), b, k)
    {
      RecycledSafe(Value(), b, k);
      index := (index - {KeyOf(bufs[b])})[k := b];
      refs := refs + multiset{k};
      bufs := bufs[b := Buf(k.dev, k.block, false, 1, bufs[b].data)];
    }

    /** Reads buffer b's block from disk. */
    method Load(b: nat)
      requires Ok() && b < NBUF && bufs[b].refcnt > 0
      modifies `bufs
      ensures Ok() && KeyOf(old(bufs)[b]) in disk && Value() == Loaded(old(Value()), b)
      ensures KeyOf(bufs[b]) in truth && bufs[b].valid && bufs[b].data == truth[KeyOf(bufs[b])]
    {
      LoadedSafe(Value(), b);
      if !bufs[b].valid {
        bufs := bufs[b := bufs[b].(data := disk[KeyOf(bufs[b])], valid := true)];
      }
    }

    /** A buffer with the latest contents of block k. */
    method Bread(k: Key) returns (ok: bool, b: nat)
      requires Ok() && k.dev != 0 && k in truth
      modifies `bufs, `index, `refs
      ensures Ok() && ok == !NoBuffer(old(Value()), k)
      ensures !ok ==> Value() == old(Value())
      ensures ok ==> b < NBUF && KeyOf(bufs[b]) == k && bufs[b].valid && bufs[b].data == truth[k]
      ensures ok ==> refs == old(refs) + multiset{k}
      ensures ok ==> forall c :: 0 <= c < NBUF && c != b ==> bufs[c] == old(bufs)[c]
      ensures ok && KeyOf(old(bufs)[b]) == k ==> bufs[b].refcnt == old(bufs)[b].refcnt + 1
      ensures ok && KeyOf(old(bufs)[b]) != k ==> bufs[b].refcnt == 1 && old(bufs)[b].refcnt == 0
    {
      ok, b := Bget(k);
      if ok {
        Load(b);
      }
    }

    /** The holder of a buffer changes its contents, which become the block's latest. */
    method Modify(b: nat, v: Block)
      requires Ok() && b < NBUF && bufs[b].valid && bufs[b].refcnt > 0
      modifies `bufs, `truth
      ensures Ok() && Value() == Edited(old(Value()), b, v)
      ensures bufs[b].data == v && truth == old(truth)[KeyOf(bufs[b]) := v] && KeyOf(bufs[b]) == KeyOf(old(bufs)[b])
    {
      EditedSafe(Value(), b, v);
      truth := truth[KeyOf(bufs[b]) := v];
      bufs := bufs[b := bufs[b].(data := v)];
    }

    /** Writes a buffer to disk; afterwards its block's latest contents are there. */
    method Bwrite(b: nat)
      requires Ok() && b < NBUF && bufs[b].dev != 0 && bufs[b].valid
      modifies `disk
      ensures Ok() && Value() == Saved(old(Value()), b)
      ensures KeyOf(bufs[b]) in truth && disk == old(disk)[KeyOf(bufs[b]) := truth[KeyOf(bufs[b])]]
    {
      SavedSafe(Value(), b);
      disk := disk[KeyOf(bufs[b]) := bufs[b].data];
    }

    /** Keeps a buffer in the cache. */
    method Bpin(b: nat)
      requires Ok() && b < NBUF && bufs[b].dev != 0
      modifies `bufs, `refs
      ensures Ok() && Value() == Referenced(old(Value()), b)
      ensures bufs[b].refcnt == old(bufs)[b].refcnt + 1 && refs == old(refs) + multiset{KeyOf(bufs[b])}
    {
      ReferencedSafe(Value(), b);
      refs := refs + multiset{KeyOf(bufs[b])};
      bufs := bufs[b := bufs[b].(refcnt := bufs[b].refcnt + 1)];
    }

    /** Drops a pin and leaves the list alone.  The cache stays safe exactly if the reference may go. */
    method Bunpin(b: nat)
      requires Ok() && b < NBUF && bufs[b].refcnt > 0
      modifies `bufs, `refs
      ensures Value() == Dropped(old(Value()), b) && Sound(Value())
      ensures bufs[b].refcnt == old(bufs)[b].refcnt - 1 && refs == old(refs) - multiset{KeyOf(bufs[b])}
      ensures Ok() <==> Spare(old(Value()), KeyOf(old(bufs)[b]))
    {
      DroppedSafe(Value(), b);
      refs := refs - multiset{KeyOf(bufs[b])};
      bufs := bufs[b := bufs[b].(refcnt := bufs[b].refcnt - 1)];
    }

    /** The pointer updates that take b out and put it behind the head. */
    method Relink(b: nat, ghost p: nat)
      requires ListOk(next, prev, ring) && 0 < p < |ring| && ring[p] == b < NBUF
      modifies `next, `prev
      ensures ListOk(next, prev, Front(ring, p))
    {
      FrontOk(next, prev, ring, p);
      prev, next := prev[next[b] := prev[b]], next[prev[b] := next[b]];
      var first := next[NBUF];
      next := next[b := first];
      prev := prev[b := NBUF];
      prev := prev[first := b];
      next := next[NBUF := b];
    }

    /** Moves b behind the head of the list. */
    method ToFront(b: nat)
      requires Listed() && b < NBUF
      modifies `next, `prev, `ring, `released, `clock
      ensures Listed() && JustReleased(ring, old(released), released, b, old(clock) + 1)
    {
      assert b in ring;
      ghost var p :| 0 <= p < |ring| && ring[p] == b;
      Relink(b, p);
      FrontAged(ring, released, clock, p);
      released := released[b := clock + 1];
      clock := clock + 1;
      ring := Front(ring, p);
    }

    /** If nobody uses b any more, moves it to the front. */
    method Retire(b: nat)
      requires Listed() && b < NBUF && b < |bufs|
      modifies `next, `prev, `ring, `released, `clock
      ensures Listed()
      ensures if bufs[b].refcnt == 0 then JustReleased(ring, old(released), released, b, old(clock) + 1)
              else ring == old(ring) && released == old(released)
    {
      if bufs[b].refcnt == 0 {
        ToFront(b);
      }
    }

    /**
     Releases a buffer; the last release makes it the most recently used.  The cache stays safe
     exactly if the reference may go.
     */
    method Brelse(b: nat)
      requires Ok() && b < NBUF && bufs[b].refcnt > 0
      modifies `bufs, `refs, `next, `prev, `ring, `released, `clock
      ensures Value() == Dropped(old(Value()), b) && Sound(Value()) && Listed()
      ensures bufs[b].refcnt == old(bufs)[b].refcnt - 1 && refs == old(refs) - multiset{KeyOf(bufs[b])}
      ensures Ok() <==> Spare(old(Value()), KeyOf(old(bufs)[b]))
      ensures if bufs[b].refcnt == 0 then JustReleased(ring, old(released), released, b, old(clock) + 1)
              else ring == old(ring) && released == old(released)
    {
      Bunpin(b);
      Retire(b);
    }
  }
}
