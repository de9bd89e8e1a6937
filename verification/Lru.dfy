/**
 The buffer cache's circular doubly linked list (kernel/bio.c), as next and prev
 arrays over node numbers.  `ring` lists the nodes in next order, the list head
 first; removing a node and inserting one behind the head are what the pointer
 updates of binit and brelse do.
 */
module Lru {
  import opened Counting

  function Succ(ring: seq<nat>, i: nat): (j: nat)
    requires i < |ring|
    ensures j < |ring|
  {
    if i == |ring| - 1 then 0 else i + 1
  }

  /** Node i of the ring and the next one point at each other. */
  ghost predicate Linked(next: seq<nat>, prev: seq<nat>, ring: seq<nat>, i: nat)
    requires i < |ring|
  {
    var a, b := ring[i], ring[Succ(ring, i)];
    a < |next| && b < |prev| && next[a] == b && prev[b] == a
  }

  ghost predicate RingOk(next: seq<nat>, prev: seq<nat>, ring: seq<nat>) {
    && 0 < |ring| && |next| == |prev| && Distinct(ring)
    && (forall i :: 0 <= i < |ring| ==> ring[i] < |next|)
    && (forall i: nat {:trigger Linked(next, prev, ring, i)} :: i < |ring| ==> Linked(next, prev, ring, i))
  }

  // ---- Taking a node out ----

  function Without(ring: seq<nat>, p: nat): (r: seq<nat>)
    requires p < |ring|
  {
    ring[..p] + ring[p + 1..]
  }

  /** b->next->prev = b->prev; b->prev->next = b->next */
  lemma Unlink(next: seq<nat>, prev: seq<nat>, ring: seq<nat>, p: nat)
    requires RingOk(next, prev, ring) && 0 < p < |ring|
    ensures ring[p] < |next| && next[ring[p]] < |prev| && prev[ring[p]] < |next|
    ensures var b := ring[p];
      RingOk(next[prev[b] := next[b]], prev[next[b] := prev[b]], Without(ring, p))
  {
    var b := ring[p];
    assert Linked(next, prev, ring, p) && Linked(next, prev, ring, p - 1);
    var n, q := next[prev[b] := next[b]], prev[next[b] := prev[b]];
    var r := Without(ring, p);
    forall i: nat | i < |r| ensures Linked(n, q, r, i) {
      UnlinkAt(next, prev, ring, p, i);
    }
  }

  lemma UnlinkAt(next: seq<nat>, prev: seq<nat>, ring: seq<nat>, p: nat, i: nat)
    requires RingOk(next, prev, ring) && 0 < p < |ring| && i < |ring| - 1
    requires next[ring[p]] < |prev| && prev[ring[p]] < |next|
    ensures var b := ring[p];
      Linked(next[prev[b] := next[b]], prev[next[b] := prev[b]], Without(ring, p), i)
  {
    assert Linked(next, prev, ring, p) && Linked(next, prev, ring, p - 1);
    var k := if i < p then i else i + 1;
    assert Linked(next, prev, ring, k);
    assert Without(ring, p)[i] == ring[k];
  }

  // ---- Putting a node behind the head ----

  function Behind(ring: seq<nat>, b: nat): (r: seq<nat>)
    requires 0 < |ring|
  {
    [ring[0], b] + ring[1..]
  }

  /** b->next = head.next; b->prev = &head; head.next->prev = b; head.next = b */
  lemma Insert(next: seq<nat>, prev: seq<nat>, ring: seq<nat>, b: nat)
    requires RingOk(next, prev, ring) && b < |next| && b !in ring
    ensures ring[0] < |next| && next[ring[0]] < |prev|
    ensures var h := ring[0];
      RingOk(next[b := next[h]][h := b], prev[b := h][next[h] := b], Behind(ring, b))
  {
    var h := ring[0];
    assert Linked(next, prev, ring, 0);
    var n, q, r := next[b := next[h]][h := b], prev[b := h][next[h] := b], Behind(ring, b);
    forall i: nat | i < |r| ensures Linked(n, q, r, i) {
      InsertAt(next, prev, ring, b, i);
    }
  }

  lemma InsertAt(next: seq<nat>, prev: seq<nat>, ring: seq<nat>, b: nat, i: nat)
    requires RingOk(next, prev, ring) && b < |next| && b !in ring && i < |ring| + 1
    requires next[ring[0]] < |prev|
    ensures var h := ring[0];
      Linked(next[b := next[h]][h := b], prev[b := h][next[h] := b], Behind(ring, b), i)
  {
    assert Linked(next, prev, ring, 0);
    if i > 0 {
      assert Linked(next, prev, ring, i - 1);
      assert Behind(ring, b)[i] == if i == 1 then b else ring[i - 1];
    }
  }
}
