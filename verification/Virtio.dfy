/** Descriptors of the virtio disk driver (kernel/virtio_disk.c): allocating, chaining and freeing them. */
module Virtio {

  const NUM: nat := 8

  /** What a descriptor points at: a request header, a buffer's data or a status byte. */
  datatype Address = Nowhere | Header(h: nat) | Payload(buf: nat) | Status(h: nat)

  datatype Desc = Desc(addr: Address, more: bool, write: bool, next: nat)

  const EMPTY: Desc := Desc(Nowhere, false, false, 0)

  /** The descriptors of c hang together, in order, and end there. */
  ghost predicate IsChain(desc: seq<Desc>, c: seq<nat>) {
    && 0 < |c| && (forall k :: 0 <= k < |c| ==> c[k] < |desc|)
    && (forall k, j :: 0 <= k < j < |c| ==> c[k] != c[j])
    && (forall k {:trigger c[k]} :: 0 <= k < |c| ==> (desc[c[k]].more <==> k < |c| - 1))
    && (forall k {:trigger Link(desc, c, k)} :: 0 <= k < |c| - 1 ==> Link(desc, c, k))
  }

  ghost predicate Link(desc: seq<Desc>, c: seq<nat>, k: nat)
    requires k + 1 < |c| && c[k] < |desc|
  {
    desc[c[k]].next == c[k + 1]
  }

  /** Which descriptors are free once those of c are. */
  ghost predicate Freed(free: seq<bool>, free': seq<bool>, c: seq<nat>) {
    |free'| == |free| && forall i :: 0 <= i < |free| ==> (free'[i] <==> free[i] || i in c)
  }

  /** The descriptors of c cleared, the others as they were. */
  ghost predicate Emptied(desc: seq<Desc>, desc': seq<Desc>, c: seq<nat>) {
    |desc'| == |desc| && forall i :: 0 <= i < |desc| ==> desc'[i] == if i in c then EMPTY else desc[i]
  }

  lemma FreedNext(free: seq<bool>, free': seq<bool>, c: seq<nat>, k: nat)
    requires k < |c| && c[k] < |free| && Freed(free, free', c[..k])
    ensures Freed(free, free'[c[k] := true], c[..k + 1])
  {
    assert c[..k + 1] == c[..k] + [c[k]];
  }

  lemma EmptiedNext(desc: seq<Desc>, desc': seq<Desc>, c: seq<nat>, k: nat)
    requires k < |c| && c[k] < |desc| && Emptied(desc, desc', c[..k])
    ensures Emptied(desc, desc'[c[k] := EMPTY], c[..k + 1])
  {
    assert c[..k + 1] == c[..k] + [c[k]];
  }

  class Queue {
    var desc: seq<Desc>
    var free: seq<bool>

    ghost predicate Ok()
      reads this
    {
      |desc| == NUM && |free| == NUM
    }

    constructor ()
      ensures Ok() && forall i :: 0 <= i < NUM ==> free[i]
    {
      desc := seq(NUM, _ => EMPTY);
      free := seq(NUM, _ => true);
    }

    /** The lowest free descriptor, taken; -1 if none is free. */
    method AllocDesc() returns (r: int)
      requires Ok()
      modifies `free
      ensures Ok() && -1 <= r < NUM
      ensures r == -1 <==> forall i :: 0 <= i < NUM ==> !old(free)[i]
      ensures r == -1 ==> free == old(free)
      ensures r >= 0 ==> old(free)[r] && free == old(free)[r := false] && forall i :: 0 <= i < r ==> !old(free)[i]
    {
      for i := 0 to NUM
        invariant free == old(free) && forall j :: 0 <= j < i ==> !free[j]
      {
        if free[i] {
          free := free[i := false];
          return i;
        }
      }
      return -1;
    }

    /** Frees descriptor i; ok is false where the kernel panics. */
    method FreeDesc(i: nat) returns (ok: bool)
      requires Ok()
      modifies this
      ensures Ok() && (ok <==> i < NUM && !old(free)[i])
      ensures ok ==> free == old(free)[i := true] && desc == old(desc)[i := EMPTY]
      ensures !ok ==> free == old(free) && desc == old(desc)
    {
      if i >= NUM || free[i] {
        return false;
      }
      desc := desc[i := EMPTY];
      free := free[i := true];
      ok := true;
    }

    /** Frees the chain that starts at i, c: exactly its descriptors, each once, without a panic. */
    method FreeChain(i: nat, ghost c: seq<nat>) returns (ok: bool)
      requires Ok() && IsChain(desc, c) && c[0] == i && forall k :: 0 <= k < |c| ==> !free[c[k]]
      modifies this
      ensures ok && Ok() && Freed(old(free), free, c) && Emptied(old(desc), desc, c)
    {
      var at := i;
      ghost var k := 0;
      ok := true;
      while true
        invariant ok && Ok() && 0 <= k < |c| && at == c[k]
        invariant forall j :: k <= j < |c| ==> !free[c[j]] && desc[c[j]] == old(desc)[c[j]]
        invariant Freed(old(free), free, c[..k]) && Emptied(old(desc), desc, c[..k])
        decreases |c| - k
      {
        ghost var was, wasDesc := free, desc;
        var more, nxt := desc[at].more, desc[at].next;
        assert k < |c| - 1 ==> Link(old(desc), c, k);
        var done := FreeDesc(at);
        ok := ok && done;
        FreedNext(old(free), was, c, k);
        EmptiedNext(old(desc), wasDesc, c, k);
        if !more {
          assert c[..k + 1] == c;
          break;
        }
        at := nxt;
        k := k + 1;
      }
    }

    /** Gives back the descriptors in idx. */
    method FreeAll(idx: seq<nat>)
      requires Ok() && (forall k :: 0 <= k < |idx| ==> idx[k] < NUM && !free[idx[k]])
      requires forall j, k :: 0 <= j < k < |idx| ==> idx[j] != idx[k]
      modifies this
      ensures Ok() && Freed(old(free), free, idx)
    {
      assert idx[..0] == [];
      for j := 0 to |idx|
        invariant Ok() && Freed(old(free), free, idx[..j])
        invariant forall k :: j <= k < |idx| ==> !free[idx[k]]
      {
        FreedNext(old(free), free, idx, j);
        var _ := FreeDesc(idx[j]);
      }
      assert idx[..|idx|] == idx;
    }

    /** Three free descriptors, taken; if there are not three, none is taken. */
    method Alloc3Desc() returns (r: int, idx: seq<nat>)
      requires Ok()
      modifies this
      ensures Ok() && (r == 0 || r == -1)
      ensures r == 0 ==>
        && |idx| == 3 && idx[0] < idx[1] < idx[2] < NUM && old(free)[idx[0]] && old(free)[idx[1]] && old(free)[idx[2]]
        && free == old(free)[idx[0] := false][idx[1] := false][idx[2] := false]
      ensures r == -1 ==> free == old(free) && !ThreeFree(free)
    {
      idx := [];
      for i := 0 to 3
        invariant Ok() && |idx| == i && Took(old(free), free, idx)
      {
        ghost var was := free;
        var d := AllocDesc();
        if d < 0 {
          NotThree(old(free), idx);
          FreeAll(idx);
          assert free == old(free);
          return -1, idx;
        }
        TookNext(old(free), was, idx, d);
        idx := idx + [d];
      }
      TookThree(old(free), free, idx);
      r := 0;
    }
  }

  /** The descriptors in idx, in order, are what was taken, and nothing below the last one is free. */
  ghost predicate Took(free: seq<bool>, free': seq<bool>, idx: seq<nat>) {
    && Freed(free', free, idx)
    && (forall j :: 0 <= j < |idx| ==> idx[j] < |free| && free[idx[j]] && !free'[idx[j]])
    && (forall j, k :: 0 <= j < k < |idx| ==> idx[j] < idx[k])
    && (|idx| > 0 ==> forall j :: 0 <= j <= idx[|idx| - 1] ==> !free'[j])
  }

  lemma TookNext(free: seq<bool>, free': seq<bool>, idx: seq<nat>, d: nat)
    requires Took(free, free', idx) && d < |free'| && free'[d] && forall i :: 0 <= i < d ==> !free'[i]
    ensures Took(free, free'[d := false], idx + [d])
  {
  }

  lemma TookThree(free: seq<bool>, free': seq<bool>, idx: seq<nat>)
    requires Took(free, free', idx) && |idx| == 3
    ensures free' == free[idx[0] := false][idx[1] := false][idx[2] := false]
  {
    assert forall i: nat :: i in idx <==> i == idx[0] || i == idx[1] || i == idx[2];
  }

  ghost predicate ThreeFree(free: seq<bool>) {
    exists i, j, k :: 0 <= i < j < k < |free| && free[i] && free[j] && free[k]
  }

  /** If all free descriptors are among two, there are not three. */
  lemma NotThree(free: seq<bool>, idx: seq<nat>)
    requires |idx| < 3 && forall i: nat :: i < |free| && free[i] ==> i in idx
    ensures !ThreeFree(free)
  {
    if i, j, k :| 0 <= i < j < k < |free| && free[i] && free[j] && free[k] {
      assert false;
    }
  }
}
