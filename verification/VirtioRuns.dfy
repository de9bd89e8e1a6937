/**
 The virtio disk protocol of kernel/virtio_disk.c: driver threads, the interrupt
 handler and the device take turns in any order.  Ring indices are 16-bit and
 wrap.  `chains` remembers what each chain in flight was submitted for, `posted`
 and `done` what the two rings should hold.
 */
module VirtioRuns {
  import opened Counting
  import opened Virtio

  const WRAP: nat := 65536

  type Block = seq<int>

  /** A transfer between buffer `buf` and disk block `block`. */
  datatype Req = Req(buf: nat, block: nat, write: bool)

  datatype Phase = Formed | Ringed | Posted | Taken | Done | Finished

  datatype Chain = Chain(d1: nat, d2: nat, req: Req, phase: Phase)

  datatype Op = Op(write: bool, block: nat)

  /** A pointer to a buffer. */
  datatype Ref = Null | To(buf: nat)

  /** The driver's and the device's view of the queue. */
  datatype Sys = Sys(
    desc: seq<Desc>, free: seq<bool>, ops: seq<Op>, info: seq<Ref>, ok: seq<bool>,
    avail: seq<nat>, availIdx: nat, lastAvail: nat,
    used: seq<nat>, usedIdx: nat, usedSeen: nat,
    onDisk: set<nat>, data: map<nat, Block>, disk: map<nat, Block>,
    hand: nat, panicked: bool,
    busy: set<nat>, chains: map<nat, Chain>, owner: seq<nat>, posted: seq<nat>, done: seq<nat>)

  datatype Event =
    | Submit(h: nat, d1: nat, d2: nat, req: Req)
    | Ring
    | Bump
    | Take
    | Complete(h: nat)
    | Intr
    | Reap(h: nat)

  // ---- Steps ----

  function Phased(chains: map<nat, Chain>, h: nat, p: Phase): (r: map<nat, Chain>) {
    if h in chains then chains[h := chains[h].(phase := p)] else chains
  }

  /** alloc3_desc and the formatting of the three descriptors, by a thread that now holds vdisk_lock. */
  predicate CanSubmit(s: Sys, h: nat, d1: nat, d2: nat, req: Req)
  {
    && s.hand == NUM && h < |s.free| && d1 < |s.free| && d2 < |s.free| && h != d1 && h != d2 && d1 != d2
    && s.free[h] && s.free[d1] && s.free[d2]
    && req.buf in s.data && req.block in s.disk
    && forall c :: c in s.chains ==> s.chains[c].req.buf != req.buf
  }

  function Submitted(s: Sys, h: nat, d1: nat, d2: nat, req: Req): (r: Sys)
    requires Sized(s) && h < NUM && d1 < NUM && d2 < NUM
  {
    s.(desc := s.desc[h := Desc(Header(h), true, false, d1)]
                     [d1 := Desc(Payload(req.buf), true, !req.write, d2)]
                     [d2 := Desc(Status(h), false, true, 0)],
       free := s.free[h := false][d1 := false][d2 := false],
       ops := s.ops[h := Op(req.write, req.block)],
       info := s.info[h := To(req.buf)],
       ok := s.ok[h := false],
       onDisk := s.onDisk + {req.buf},
       hand := h,
       chains := s.chains[h := Chain(d1, d2, req, Formed)],
       owner := s.owner[h := h][d1 := h][d2 := h])
  }

  /** avail->ring[avail->idx % NUM] = idx[0] */
  function Rung(s: Sys): (r: Sys)
    requires Sized(s)
  {
    s.(avail := s.avail[s.availIdx % NUM := s.hand], chains := Phased(s.chains, s.hand, Ringed))
  }

  /** avail->idx += 1, after which the thread sleeps and so gives up the lock. */
  function Bumped(s: Sys): (r: Sys) {
    s.(availIdx := (s.availIdx + 1) % WRAP, hand := NUM, chains := Phased(s.chains, s.hand, Posted),
       posted := s.posted + [s.hand])
  }

  /** The device takes the next entry of the available ring. */
  function Took(s: Sys): (r: Sys)
    requires Sized(s)
  {
    var h := s.avail[s.lastAvail % NUM];
    s.(lastAvail := (s.lastAvail + 1) % WRAP, busy := s.busy + {h}, chains := Phased(s.chains, h, Taken),
       posted := if s.posted == [] then [] else s.posted[1..])
  }

  /** The transfer the descriptors from h on describe. */
  function Described(s: Sys, h: nat): (r: Req)
    requires Sized(s)
  {
    if h < NUM && s.desc[h].addr.Header? && s.desc[h].addr.h < NUM && s.desc[h].next < NUM && s.desc[s.desc[h].next].addr.Payload?
    then
      var op := s.ops[s.desc[h].addr.h];
      Req(s.desc[s.desc[h].next].addr.buf, op.block, op.write)
    else Req(0, 0, false)
  }

  /** Where the descriptors from h on say the status goes, NUM if nowhere. */
  function StatusOf(s: Sys, h: nat): (r: nat)
    requires Sized(s)
  {
    if h < NUM && s.desc[h].next < NUM && s.desc[s.desc[h].next].next < NUM && s.desc[s.desc[s.desc[h].next].next].addr.Status?
    then s.desc[s.desc[s.desc[h].next].next].addr.h else NUM
  }

  /** The chain is one the device can carry out: three descriptors, the payload marked for the direction of the request. */
  predicate WellFormed(s: Sys, h: nat)
    requires Sized(s)
  {
    && h < NUM && s.desc[h].addr.Header? && s.desc[h].addr.h < NUM && s.desc[h].more && !s.desc[h].write && s.desc[h].next < NUM
    && var d1 := s.desc[s.desc[h].next];
    && d1.addr.Payload? && d1.more && d1.write == !s.ops[s.desc[h].addr.h].write && d1.next < NUM
    && var d2 := s.desc[d1.next];
    && d2.addr.Status? && d2.write && !d2.more && d2.addr.h < NUM
  }

  /** What the device leaves in memory: it fills the payload's buffer if the descriptor lets it write there. */
  function DeviceData(s: Sys, h: nat): (data: map<nat, Block>)
    requires Sized(s)
  {
    var q := Described(s, h);
    if WellFormed(s, h) && s.desc[s.desc[h].next].write && q.block in s.disk then s.data[q.buf := s.disk[q.block]] else s.data
  }

  /** What the device leaves on disk: a request of type out stores the payload's buffer. */
  function DeviceDisk(s: Sys, h: nat): (disk: map<nat, Block>)
    requires Sized(s)
  {
    var q := Described(s, h);
    if WellFormed(s, h) && q.write && q.buf in s.data then s.disk[q.block := s.data[q.buf]] else s.disk
  }

  /** The device carries out what the descriptors say and reports h in the used ring. */
  function Completed(s: Sys, h: nat): (r: Sys)
    requires Sized(s)
  {
    var st := StatusOf(s, h);
    s.(data := DeviceData(s, h), disk := DeviceDisk(s, h),
       ok := if WellFormed(s, h) && st < NUM then s.ok[st := true] else s.ok,
       used := s.used[s.usedIdx % NUM := h], usedIdx := (s.usedIdx + 1) % WRAP, busy := s.busy - {h},
       chains := Phased(s.chains, h, Done), done := s.done + [h])
  }

  /** One round of virtio_disk_intr's loop. */
  function Interrupted(s: Sys): (r: Sys)
    requires Sized(s)
  {
    var id := s.used[s.usedSeen % NUM];
    if id >= NUM || !s.ok[id] || s.info[id].Null? then s.(panicked := true)
    else
      s.(onDisk := s.onDisk - {s.info[id].buf}, usedSeen := (s.usedSeen + 1) % WRAP, chains := Phased(s.chains, id, Finished),
         done := if s.done == [] then [] else s.done[1..])
  }

  /** info[idx[0]].b = 0 and free_chain, by the thread that sees its buffer done. */
  function Reaped(s: Sys, h: nat): (r: Sys)
    requires Sized(s) && h < NUM && s.desc[h].next < NUM && s.desc[s.desc[h].next].next < NUM
  {
    var d1 := s.desc[h].next;
    var d2 := s.desc[d1].next;
    s.(desc := s.desc[h := EMPTY][d1 := EMPTY][d2 := EMPTY], free := s.free[h := true][d1 := true][d2 := true],
       info := s.info[h := Null],
       owner := s.owner[h := NUM][d1 := NUM][d2 := NUM], chains := s.chains - {h})
  }

  predicate Sized(s: Sys) {
    && |s.desc| == NUM && |s.free| == NUM && |s.ops| == NUM && |s.info| == NUM && |s.ok| == NUM
    && |s.avail| == NUM && |s.used| == NUM && |s.owner| == NUM
  }

  ghost predicate Next(s: Sys, s': Sys, e: Event) {
    && Sized(s)
    && match e
       case Submit(h, d1, d2, req) => CanSubmit(s, h, d1, d2, req) && s' == Submitted(s, h, d1, d2, req)
       case Ring => s.hand in s.chains && s.chains[s.hand].phase == Formed && s' == Rung(s)
       case Bump => s.hand in s.chains && s.chains[s.hand].phase == Ringed && s' == Bumped(s)
       case Take => s.lastAvail != s.availIdx && s' == Took(s)
       case Complete(h) => h in s.busy && s' == Completed(s, h)
       case Intr => s.hand == NUM && s.usedSeen != s.usedIdx && s' == Interrupted(s)
       case Reap(h) => s.hand == NUM && h in s.chains && s.chains[h].req.buf !in s.onDisk
                       && h < NUM && s.desc[h].next < NUM && s.desc[s.desc[h].next].next < NUM && s' == Reaped(s, h)
  }

  ghost predicate Init(s: Sys) {
    && Sized(s) && (forall i :: 0 <= i < NUM ==> s.free[i] && s.owner[i] == NUM)
    && s.availIdx == s.lastAvail == s.usedIdx == s.usedSeen == 0 && s.hand == NUM && !s.panicked
    && s.chains == map[] && s.posted == [] && s.done == [] && s.busy == {} && s.onDisk == {}
  }

  // ---- Invariant ----

  /** Chain h is laid out in the descriptors as it was submitted. */
  ghost predicate Laid(s: Sys, h: nat)
    requires Sized(s) && h in s.chains
  {
    var c := s.chains[h];
    && h < NUM && c.d1 < NUM && c.d2 < NUM && h != c.d1 && h != c.d2 && c.d1 != c.d2
    && s.owner[h] == h && s.owner[c.d1] == h && s.owner[c.d2] == h
    && s.desc[h] == Desc(Header(h), true, false, c.d1)
    && s.desc[c.d1] == Desc(Payload(c.req.buf), true, !c.req.write, c.d2)
    && s.desc[c.d2] == Desc(Status(h), false, true, 0)
    && s.ops[h] == Op(c.req.write, c.req.block) && s.info[h] == To(c.req.buf)
    && c.req.buf in s.data && c.req.block in s.disk
  }

  /** Where chain h stands matches its phase. */
  ghost predicate Stands(s: Sys, h: nat)
    requires Sized(s) && h in s.chains && h < NUM
  {
    var p := s.chains[h].phase;
    && (s.hand == h <==> p == Formed || p == Ringed)
    && (h in s.posted <==> p == Posted) && (h in s.busy <==> p == Taken) && (h in s.done <==> p == Done)
    && (s.chains[h].req.buf in s.onDisk <==> p != Finished)
    && (p == Done ==> s.ok[h])
    && (p == Ringed ==> s.avail[s.availIdx % NUM] == h)
  }

  ghost predicate OwnerFits(s: Sys, i: nat)
    requires Sized(s) && i < NUM
  {
    && (s.free[i] <==> s.owner[i] == NUM)
    && (s.owner[i] != NUM ==> s.owner[i] in s.chains)
    && (s.owner[i] != NUM ==> i == s.owner[i] || i == s.chains[s.owner[i]].d1 || i == s.chains[s.owner[i]].d2)
  }

  /** A ring holds a queue from a 16-bit index on. */
  ghost predicate Holds(ring: seq<nat>, from: nat, to: nat, q: seq<nat>) {
    && |ring| == NUM && from < WRAP && to == (from + |q|) % WRAP && Distinct(q)
    && forall k {:trigger q[k]} :: 0 <= k < |q| ==> ring[(from + k) % NUM] == q[k]
  }

  ghost predicate Inv(s: Sys) {
    && Sized(s) && !s.panicked
    && (forall h {:trigger Laid(s, h)} :: h in s.chains ==> Laid(s, h))
    && (forall h {:trigger Stands(s, h)} :: h in s.chains && h < NUM ==> Stands(s, h))
    && (forall h, g :: h in s.chains && g in s.chains && s.chains[h].req.buf == s.chains[g].req.buf ==> h == g)
    && (forall i: nat {:trigger OwnerFits(s, i)} :: i < NUM ==> OwnerFits(s, i))
    && Holds(s.avail, s.lastAvail, s.availIdx, s.posted) && Holds(s.used, s.usedSeen, s.usedIdx, s.done)
    && (forall h :: h in s.posted || h in s.busy || h in s.done ==> h in s.chains)
    && (s.hand == NUM || s.hand in s.chains)
  }

  // ---- Few chains ----

  function Members(s: Sys, h: nat): (r: set<nat>)
    requires h in s.chains
  {
    {h, s.chains[h].d1, s.chains[h].d2}
  }

  /** How many descriptors h owns. */
  function Owned(owner: seq<nat>, h: nat): (n: nat) {
    if owner == [] then 0
    else Owned(owner[..|owner| - 1], h) + (if owner[|owner| - 1] == h then 1 else 0)
  }

  lemma {:induction false} OwnedThree(owner: seq<nat>, a: nat, b: nat, c: nat)
    requires a != b && a != c && b != c
    ensures Owned(owner, a) + Owned(owner, b) + Owned(owner, c) <= |owner|
  {
    if owner != [] {
      OwnedThree(owner[..|owner| - 1], a, b, c);
    }
  }

  lemma {:induction false} OwnedLess(owner: seq<nat>, h: nat, i: nat, x: nat)
    requires i < |owner| && owner[i] == h && x != h
    ensures Owned(owner, h) == Owned(owner[i := x], h) + 1
  {
    var n := |owner| - 1;
    if i < n {
      OwnedLess(owner[..n], h, i, x);
      assert owner[i := x][..n] == owner[..n][i := x];
    } else {
      assert owner[i := x][..n] == owner[..n];
    }
  }

  lemma ChainOwnsThree(s: Sys, h: nat)
    requires Sized(s) && h in s.chains && Laid(s, h)
    ensures Owned(s.owner, h) >= 3
  {
    var c := s.chains[h];
    var o1 := s.owner[h := h + 1];
    var o2 := o1[c.d1 := h + 1];
    OwnedLess(s.owner, h, h, h + 1);
    OwnedLess(o1, h, c.d1, h + 1);
    OwnedLess(o2, h, c.d2, h + 1);
  }

  /** Three descriptors a chain, NUM in all: there are never three chains. */
  lemma NeverThree(s: Sys, a: nat, b: nat, c: nat)
    requires Inv(s) && a in s.chains && b in s.chains && c in s.chains
    ensures a == b || a == c || b == c
  {
    assert Laid(s, a) && Laid(s, b) && Laid(s, c);
    ChainOwnsThree(s, a);
    ChainOwnsThree(s, b);
    ChainOwnsThree(s, c);
    if a != b && a != c && b != c {
      OwnedThree(s.owner, a, b, c);
      assert false;
    }
  }

  lemma AtMostTwo(s: Sys, q: seq<nat>)
    requires Inv(s) && Distinct(q) && forall h :: h in q ==> h in s.chains
    ensures |q| <= 2
  {
    if |q| > 2 {
      NeverThree(s, q[0], q[1], q[2]);
      assert false;
    }
  }

  // ---- Rings ----

  lemma Slots(from: nat, n: nat, k: nat)
    requires k < n < NUM
    ensures (from + n) % WRAP % NUM == (from + n) % NUM
    ensures (from + k) % NUM != (from + n) % NUM
  {
    Wrapped(from + n);
  }

  lemma Wrapped(x: nat)
    ensures x % WRAP % NUM == x % NUM
  {
    assert x == x / WRAP * WRAP + x % WRAP;
    assert x / WRAP * WRAP == x / WRAP * 8192 * NUM;
  }

  /** A write at the free end of a ring overwrites nothing that is queued. */
  lemma RingWrite(ring: seq<nat>, from: nat, to: nat, q: seq<nat>, h: nat)
    requires Holds(ring, from, to, q) && |q| < NUM
    ensures Holds(ring[to % NUM := h], from, to, q)
  {
    forall k | 0 <= k < |q| ensures ring[to % NUM := h][(from + k) % NUM] == q[k] {
      Slots(from, |q|, k);
    }
  }

  /** Advancing the index publishes what was written, also across the wrap. */
  lemma RingPublish(ring: seq<nat>, from: nat, to: nat, q: seq<nat>, h: nat)
    requires Holds(ring, from, to, q) && |q| < NUM && ring[to % NUM] == h && h !in q
    ensures Holds(ring, from, (to + 1) % WRAP, q + [h])
  {
    Wrapped(from + |q|);
    assert (to + 1) % WRAP == (from + |q + [h]|) % WRAP;
  }

  /** The reader finds an entry exactly if one is queued, and it is the oldest. */
  lemma RingRead(ring: seq<nat>, from: nat, to: nat, q: seq<nat>)
    requires Holds(ring, from, to, q) && |q| < NUM
    ensures from != to <==> q != []
    ensures q != [] ==> ring[from % NUM] == q[0] && Holds(ring, (from + 1) % WRAP, to, q[1..])
  {
    if q != [] {
      assert ring[(from + 0) % NUM] == q[0];
      forall k | 0 <= k < |q[1..]| ensures ring[((from + 1) % WRAP + k) % NUM] == q[1..][k] {
        NextSlot(from, k);
        assert ring[(from + (k + 1)) % NUM] == q[k + 1];
      }
      NextEnd(from, |q|);
    }
  }

  lemma NextSlot(from: nat, k: nat)
    requires from < WRAP
    ensures ((from + 1) % WRAP + k) % NUM == (from + (k + 1)) % NUM
  {
    if from + 1 == WRAP {
      assert from + (k + 1) == 8192 * NUM + k;
    }
  }

  lemma NextEnd(from: nat, n: nat)
    requires from < WRAP && 0 < n < NUM
    ensures ((from + 1) % WRAP + (n - 1)) % WRAP == (from + n) % WRAP
  {
  }

  // ---- Every step keeps the invariant ----

  /** A free descriptor is no chain's. */
  lemma FreeIsNobodys(s: Sys, i: nat, h: nat)
    requires Inv(s) && i < NUM && s.free[i] && h in s.chains
    ensures i != h && i != s.chains[h].d1 && i != s.chains[h].d2
  {
    assert OwnerFits(s, i) && Laid(s, h);
  }

  lemma SubmitChain(s: Sys, h: nat, d1: nat, d2: nat, req: Req, g: nat)
    requires Inv(s) && CanSubmit(s, h, d1, d2, req) && g in Submitted(s, h, d1, d2, req).chains
    ensures Laid(Submitted(s, h, d1, d2, req), g) && Stands(Submitted(s, h, d1, d2, req), g)
  {
    if g in s.chains {
      FreeIsNobodys(s, h, g);
      FreeIsNobodys(s, d1, g);
      FreeIsNobodys(s, d2, g);
      assert Laid(s, g) && Stands(s, g);
    }
  }

  lemma SubmitOwner(s: Sys, h: nat, d1: nat, d2: nat, req: Req, i: nat)
    requires Inv(s) && CanSubmit(s, h, d1, d2, req) && i < NUM
    ensures OwnerFits(Submitted(s, h, d1, d2, req), i)
  {
    assert OwnerFits(s, i) && OwnerFits(s, h);
    if h in s.chains { FreeIsNobodys(s, h, h); }
  }

  lemma SubmitKeeps(s: Sys, h: nat, d1: nat, d2: nat, req: Req)
    requires Inv(s) && CanSubmit(s, h, d1, d2, req)
    ensures Inv(Submitted(s, h, d1, d2, req))
  {
    var s' := Submitted(s, h, d1, d2, req);
    forall g | g in s'.chains ensures Laid(s', g) && Stands(s', g) {
      SubmitChain(s, h, d1, d2, req, g);
    }
    forall i: nat | i < NUM ensures OwnerFits(s', i) {
      SubmitOwner(s, h, d1, d2, req, i);
    }
  }

  /** s' differs from s in where chains stand, not in how they are laid out. */
  ghost predicate Moves(s: Sys, s': Sys) {
    && s'.desc == s.desc && s'.owner == s.owner && s'.ops == s.ops && s'.info == s.info && s'.free == s.free
    && s'.data.Keys == s.data.Keys && s'.disk.Keys == s.disk.Keys && s'.chains.Keys == s.chains.Keys
    && forall g {:trigger s'.chains[g]} {:trigger s.chains[g]} :: g in s.chains ==>
         s'.chains[g].d1 == s.chains[g].d1 && s'.chains[g].d2 == s.chains[g].d2 && s'.chains[g].req == s.chains[g].req
  }

  lemma MovesLaid(s: Sys, s': Sys, g: nat)
    requires Sized(s) && Sized(s') && Moves(s, s') && g in s.chains && Laid(s, g)
    ensures Laid(s', g)
  {
  }

  /** What is left to show of a step that only moves chains on. */
  lemma MovesKeeps(s: Sys, s': Sys)
    requires Inv(s) && Sized(s') && Moves(s, s') && !s'.panicked
    requires forall g {:trigger Stands(s', g)} :: g in s'.chains && g < NUM ==> Stands(s', g)
    requires Holds(s'.avail, s'.lastAvail, s'.availIdx, s'.posted) && Holds(s'.used, s'.usedSeen, s'.usedIdx, s'.done)
    requires forall h :: h in s'.posted || h in s'.busy || h in s'.done ==> h in s'.chains
    requires s'.hand == NUM || s'.hand in s'.chains
    ensures Inv(s')
  {
    forall g | g in s'.chains ensures Laid(s', g) {
      assert Laid(s, g);
      MovesLaid(s, s', g);
    }
    forall i: nat | i < NUM ensures OwnerFits(s', i) {
      assert OwnerFits(s, i);
    }
  }

  lemma RungKeeps(s: Sys)
    requires Inv(s) && s.hand in s.chains && s.chains[s.hand].phase == Formed
    ensures Inv(Rung(s))
  {
    var s' := Rung(s);
    AtMostTwo(s, s.posted);
    RingWrite(s.avail, s.lastAvail, s.availIdx, s.posted, s.hand);
    forall g | g in s'.chains && g < NUM ensures Stands(s', g) {
      assert Stands(s, g);
    }
    MovesKeeps(s, s');
  }

  lemma BumpedKeeps(s: Sys)
    requires Inv(s) && s.hand in s.chains && s.chains[s.hand].phase == Ringed
    ensures Inv(Bumped(s))
  {
    var s' := Bumped(s);
    assert Laid(s, s.hand) && Stands(s, s.hand);
    AtMostTwo(s, s.posted);
    RingPublish(s.avail, s.lastAvail, s.availIdx, s.posted, s.hand);
    forall g | g in s'.chains && g < NUM ensures Stands(s', g) {
      assert Stands(s, g);
    }
    MovesKeeps(s, s');
  }

  lemma Dequeued(q: seq<nat>)
    requires q != [] && Distinct(q)
    ensures forall h :: h in q[1..] <==> h in q && h != q[0]
  {
  }

  /** The device finds the chain that was posted first. */
  lemma TakeFindsPosted(s: Sys)
    requires Inv(s) && s.lastAvail != s.availIdx
    ensures s.posted != [] && s.avail[s.lastAvail % NUM] == s.posted[0] && s.posted[0] in s.chains && s.posted[0] < NUM
    ensures s.chains[s.posted[0]].phase == Posted
    ensures Holds(s.avail, (s.lastAvail + 1) % WRAP, s.availIdx, s.posted[1..])
  {
    AtMostTwo(s, s.posted);
    RingRead(s.avail, s.lastAvail, s.availIdx, s.posted);
    var h := s.posted[0];
    assert h in s.posted && Laid(s, h) && Stands(s, h);
  }

  lemma TookStands(s: Sys, s': Sys, h: nat, g: nat)
    requires Sized(s) && g in s.chains && g < NUM && Stands(s, g) && h in s.chains && s.chains[h].phase == Posted
    requires s' == s.(lastAvail := s'.lastAvail, busy := s.busy + {h}, chains := Phased(s.chains, h, Taken), posted := s'.posted)
    requires g in s'.posted <==> g in s.posted && g != h
    ensures Stands(s', g)
  {
  }

  lemma TookKeeps(s: Sys)
    requires Inv(s) && s.lastAvail != s.availIdx
    ensures Inv(Took(s))
  {
    var s' := Took(s);
    TakeFindsPosted(s);
    Dequeued(s.posted);
    forall g | g in s'.chains && g < NUM ensures Stands(s', g) {
      assert Stands(s, g);
      TookStands(s, s', s.posted[0], g);
    }
    MovesKeeps(s, s');
  }

  /** The device does what was asked for: the descriptors describe the request submitted. */
  lemma DeviceDoesRequest(s: Sys, h: nat)
    requires Inv(s) && h in s.busy
    ensures h in s.chains && s.chains[h].phase == Taken && h < NUM
    ensures Described(s, h) == s.chains[h].req && StatusOf(s, h) == h && WellFormed(s, h)
    ensures s.chains[h].req.buf in s.data && s.chains[h].req.block in s.disk
    ensures var q := s.chains[h].req;
      && DeviceData(s, h) == (if q.write then s.data else s.data[q.buf := s.disk[q.block]])
      && DeviceDisk(s, h) == (if q.write then s.disk[q.block := s.data[q.buf]] else s.disk)
  {
    assert Laid(s, h) && Stands(s, h);
  }

  lemma CompletedRing(s: Sys, h: nat)
    requires Inv(s) && h in s.busy
    ensures Holds(s.used[s.usedIdx % NUM := h], s.usedSeen, (s.usedIdx + 1) % WRAP, s.done + [h])
  {
    assert Laid(s, h) && Stands(s, h);
    AtMostTwo(s, s.done);
    RingWrite(s.used, s.usedSeen, s.usedIdx, s.done, h);
    RingPublish(s.used[s.usedIdx % NUM := h], s.usedSeen, s.usedIdx, s.done, h);
  }

  lemma CompletedStands(s: Sys, s': Sys, h: nat, g: nat)
    requires Sized(s) && g in s.chains && g < NUM && Stands(s, g) && h in s.chains && h < NUM && s.chains[h].phase == Taken
    requires s' == s.(data := s'.data, disk := s'.disk, ok := s.ok[h := true], used := s'.used, usedIdx := s'.usedIdx,
                      busy := s.busy - {h}, chains := Phased(s.chains, h, Done), done := s.done + [h])
    requires Sized(s')
    ensures Stands(s', g)
  {
  }

  lemma CompletedKeeps(s: Sys, h: nat)
    requires Inv(s) && h in s.busy
    ensures Inv(Completed(s, h))
  {
    var s' := Completed(s, h);
    DeviceDoesRequest(s, h);
    CompletedRing(s, h);
    assert s'.data.Keys == s.data.Keys && s'.disk.Keys == s.disk.Keys;
    forall g | g in s'.chains && g < NUM ensures Stands(s', g) {
      assert Stands(s, g);
      CompletedStands(s, s', h, g);
    }
    MovesKeeps(s, s');
  }

  /** The interrupt handler finds a completed chain with its own buffer, and a good status. */
  lemma IntrFindsCompletion(s: Sys)
    requires Inv(s) && s.usedSeen != s.usedIdx
    ensures s.done != [] && s.used[s.usedSeen % NUM] == s.done[0] && s.done[0] in s.chains && s.done[0] < NUM
    ensures s.chains[s.done[0]].phase == Done && s.ok[s.done[0]] && s.info[s.done[0]] == To(s.chains[s.done[0]].req.buf)
    ensures Holds(s.used, (s.usedSeen + 1) % WRAP, s.usedIdx, s.done[1..])
  {
    AtMostTwo(s, s.done);
    RingRead(s.used, s.usedSeen, s.usedIdx, s.done);
    var h := s.done[0];
    assert h in s.done && Laid(s, h) && Stands(s, h);
  }

  lemma InterruptedStands(s: Sys, s': Sys, h: nat, g: nat)
    requires Sized(s) && g in s.chains && g < NUM && Stands(s, g) && h in s.chains && s.chains[h].phase == Done
    requires g != h ==> s.chains[g].req.buf != s.chains[h].req.buf
    requires s' == s.(onDisk := s.onDisk - {s.chains[h].req.buf}, usedSeen := s'.usedSeen,
                      chains := Phased(s.chains, h, Finished), done := s'.done)
    requires g in s'.done <==> g in s.done && g != h
    ensures Stands(s', g)
  {
  }

  lemma InterruptedKeeps(s: Sys)
    requires Inv(s) && s.usedSeen != s.usedIdx
    ensures Inv(Interrupted(s))
  {
    var s' := Interrupted(s);
    IntrFindsCompletion(s);
    Dequeued(s.done);
    forall g | g in s'.chains && g < NUM ensures Stands(s', g) {
      assert Stands(s, g);
      InterruptedStands(s, s', s.done[0], g);
    }
    MovesKeeps(s, s');
  }

  /** A thread that sees its buffer done frees exactly its own chain. */
  lemma ReapOwnChain(s: Sys, h: nat)
    requires Inv(s) && h in s.chains && s.chains[h].req.buf !in s.onDisk
    ensures h < NUM && s.chains[h].phase == Finished
    ensures s.desc[h].next == s.chains[h].d1 < NUM && s.desc[s.desc[h].next].next == s.chains[h].d2 < NUM
    ensures IsChain(s.desc, [h, s.chains[h].d1, s.chains[h].d2])
    ensures !s.free[h] && !s.free[s.chains[h].d1] && !s.free[s.chains[h].d2]
  {
    assert Laid(s, h) && Stands(s, h);
    var c := s.chains[h];
    assert OwnerFits(s, h) && OwnerFits(s, c.d1) && OwnerFits(s, c.d2);
  }

  /** What free_chain makes of the chain's descriptors is what the step says. */
  lemma ReapIsFreeChain(s: Sys, h: nat, desc: seq<Desc>, free: seq<bool>)
    requires Inv(s) && h in s.chains && s.chains[h].req.buf !in s.onDisk
    requires var c := [h, s.chains[h].d1, s.chains[h].d2]; Emptied(s.desc, desc, c) && Freed(s.free, free, c)
    ensures h < NUM && s.desc[h].next < NUM && s.desc[s.desc[h].next].next < NUM
    ensures Reaped(s, h).desc == desc && Reaped(s, h).free == free
  {
    ReapOwnChain(s, h);
    var c := [h, s.chains[h].d1, s.chains[h].d2];
    assert forall i: nat :: i in c <==> i == c[0] || i == c[1] || i == c[2];
  }

  lemma ReapedChain(s: Sys, h: nat, g: nat)
    requires Inv(s) && h in s.chains && s.chains[h].req.buf !in s.onDisk && g in s.chains && g != h
    requires h < NUM && s.desc[h].next < NUM && s.desc[s.desc[h].next].next < NUM
    ensures Laid(Reaped(s, h), g) && Stands(Reaped(s, h), g)
  {
    assert Laid(s, h) && Laid(s, g) && Stands(s, g);
  }

  lemma ReapedOwner(s: Sys, h: nat, i: nat)
    requires Inv(s) && h in s.chains && s.chains[h].req.buf !in s.onDisk && i < NUM
    requires h < NUM && s.desc[h].next < NUM && s.desc[s.desc[h].next].next < NUM
    ensures OwnerFits(Reaped(s, h), i)
  {
    assert Laid(s, h) && OwnerFits(s, i);
  }

  lemma ReapedKeeps(s: Sys, h: nat)
    requires Inv(s) && h in s.chains && s.chains[h].req.buf !in s.onDisk && s.hand == NUM
    requires h < NUM && s.desc[h].next < NUM && s.desc[s.desc[h].next].next < NUM
    ensures Inv(Reaped(s, h))
  {
    var s' := Reaped(s, h);
    assert Laid(s, h) && Stands(s, h);
    forall g | g in s'.chains ensures Laid(s', g) && Stands(s', g) {
      ReapedChain(s, h, g);
    }
    forall i: nat | i < NUM ensures OwnerFits(s', i) {
      ReapedOwner(s, h, i);
    }
  }

  /** No interleaving of driver, interrupt and device steps leaves the protocol. */
  lemma StepKeeps(s: Sys, s': Sys, e: Event)
    requires Inv(s) && Next(s, s', e)
    ensures Inv(s')
  {
    match e
    case Submit(h, d1, d2, req) => SubmitKeeps(s, h, d1, d2, req);
    case Ring => RungKeeps(s);
    case Bump => BumpedKeeps(s);
    case Take => TookKeeps(s);
    case Complete(h) => CompletedKeeps(s, h);
    case Intr => InterruptedKeeps(s);
    case Reap(h) => ReapedKeeps(s, h);
  }

  // ---- Runs ----

  ghost predicate Follows(trace: seq<Sys>, events: seq<Event>, i: nat)
    requires i < |events| < |trace|
  {
    Next(trace[i], trace[i + 1], events[i])
  }

  ghost predicate Run(trace: seq<Sys>, events: seq<Event>) {
    && |trace| == |events| + 1 && Init(trace[0])
    && forall i: nat {:trigger Follows(trace, events, i)} :: i < |events| ==> Follows(trace, events, i)
  }

  lemma {:induction false} RunKeepsInv(trace: seq<Sys>, events: seq<Event>, n: nat)
    requires Run(trace, events) && n < |trace|
    ensures Inv(trace[n])
  {
    if n > 0 {
      RunKeepsInv(trace, events, n - 1);
      assert Follows(trace, events, n - 1);
      StepKeeps(trace[n - 1], trace[n], events[n - 1]);
    }
  }

  /** In every run each descriptor is free or belongs to exactly one chain in flight, and no panic is reached. */
  lemma DescriptorsPartition(trace: seq<Sys>, events: seq<Event>, n: nat, i: nat)
    requires Run(trace, events) && n < |trace| && i < NUM
    ensures Sized(trace[n]) && !trace[n].panicked
    ensures var s := trace[n];
      && (s.free[i] <==> forall h :: h in s.chains ==> i != h && i != s.chains[h].d1 && i != s.chains[h].d2)
      && (forall h, g :: h in s.chains && g in s.chains && i in Members(s, h) && i in Members(s, g) ==> h == g)
  {
    RunKeepsInv(trace, events, n);
    var s := trace[n];
    assert OwnerFits(s, i);
    forall h | h in s.chains && i in Members(s, h) ensures s.owner[i] == h {
      assert Laid(s, h);
    }
    if s.free[i] {
      forall h | h in s.chains ensures i != h && i != s.chains[h].d1 && i != s.chains[h].d2 {
        FreeIsNobodys(s, i, h);
      }
    }
  }

  /** In every run the rings hold what was queued and not yet read, never more than two entries, across index wraps. */
  lemma RingsNeverOverwritten(trace: seq<Sys>, events: seq<Event>, n: nat)
    requires Run(trace, events) && n < |trace|
    ensures var s := trace[n];
      && Holds(s.avail, s.lastAvail, s.availIdx, s.posted) && |s.posted| <= 2
      && Holds(s.used, s.usedSeen, s.usedIdx, s.done) && |s.done| <= 2
      && (s.lastAvail != s.availIdx <==> s.posted != []) && (s.usedSeen != s.usedIdx <==> s.done != [])
  {
    RunKeepsInv(trace, events, n);
    var s := trace[n];
    AtMostTwo(s, s.posted);
    AtMostTwo(s, s.done);
    RingRead(s.avail, s.lastAvail, s.availIdx, s.posted);
    RingRead(s.used, s.usedSeen, s.usedIdx, s.done);
  }

  // ---- An atomic disk ----

  /** A disk that carries out each request at one moment between submission and return. */
  datatype Atomic = Atomic(data: map<nat, Block>, disk: map<nat, Block>, pending: map<nat, Req>, served: map<nat, Req>)

  ghost function Waiting(chains: map<nat, Chain>, served: bool): (r: map<nat, Req>) {
    map h | h in chains && (served <==> chains[h].phase == Done || chains[h].phase == Finished) :: chains[h].req
  }

  ghost function Abs(s: Sys): (a: Atomic) {
    Atomic(s.data, s.disk, Waiting(s.chains, false), Waiting(s.chains, true))
  }

  ghost predicate AtomicNext(a: Atomic, a': Atomic, e: Event) {
    match e
    case Submit(h, d1, d2, req) => h !in a.pending && h !in a.served && a' == a.(pending := a.pending[h := req])
    case Complete(h) =>
      && h in a.pending && h !in a.served
      && a'.pending == a.pending - {h} && a'.served == a.served[h := a.pending[h]]
      && var q := a.pending[h];
      && q.buf in a.data && q.block in a.disk
      && if q.write then a'.data == a.data && a'.disk == a.disk[q.block := a.data[q.buf]]
         else a'.data == a.data[q.buf := a.disk[q.block]] && a'.disk == a.disk
    case Reap(h) => h in a.served && a' == a.(served := a.served - {h})
    case _ => a' == a
  }

  lemma PhasedWaiting(chains: map<nat, Chain>, h: nat, p: Phase, served: bool)
    requires h in chains
    requires (p == Done || p == Finished) <==> (chains[h].phase == Done || chains[h].phase == Finished)
    ensures Waiting(Phased(chains, h, p), served) == Waiting(chains, served)
  {
  }

  lemma NewHead(s: Sys, h: nat)
    requires Inv(s) && h < NUM && s.free[h]
    ensures h !in s.chains
  {
    forall g | g in s.chains ensures g != h {
      FreeIsNobodys(s, h, g);
    }
  }

  lemma SubmitRefines(s: Sys, h: nat, d1: nat, d2: nat, req: Req)
    requires Inv(s) && CanSubmit(s, h, d1, d2, req)
    ensures AtomicNext(Abs(s), Abs(Submitted(s, h, d1, d2, req)), Submit(h, d1, d2, req))
  {
    NewHead(s, h);
    var chains' := s.chains[h := Chain(d1, d2, req, Formed)];
    assert Waiting(chains', false) == Waiting(s.chains, false)[h := req];
    assert Waiting(chains', true) == Waiting(s.chains, true);
  }

  lemma CompleteRefines(s: Sys, h: nat)
    requires Inv(s) && h in s.busy
    ensures AtomicNext(Abs(s), Abs(Completed(s, h)), Complete(h))
  {
    DeviceDoesRequest(s, h);
    ServedNow(s.chains, h);
  }

  lemma ServedNow(chains: map<nat, Chain>, h: nat)
    requires h in chains && chains[h].phase == Taken
    ensures Waiting(Phased(chains, h, Done), false) == Waiting(chains, false) - {h}
    ensures Waiting(Phased(chains, h, Done), true) == Waiting(chains, true)[h := chains[h].req]
    ensures h in Waiting(chains, false) && h !in Waiting(chains, true) && Waiting(chains, false)[h] == chains[h].req
  {
  }

  lemma ReapRefines(s: Sys, h: nat)
    requires Inv(s) && h in s.chains && s.chains[h].req.buf !in s.onDisk
    requires h < NUM && s.desc[h].next < NUM && s.desc[s.desc[h].next].next < NUM
    ensures AtomicNext(Abs(s), Abs(Reaped(s, h)), Reap(h))
  {
    ReapOwnChain(s, h);
    var chains' := Reaped(s, h).chains;
    assert Waiting(chains', false) == Waiting(s.chains, false);
    assert Waiting(chains', true) == Waiting(s.chains, true) - {h};
  }

  /** Moving a chain on within its half of the protocol changes nothing at this level. */
  lemma PhaseRefines(s: Sys, s': Sys, h: nat, p: Phase)
    requires h in s.chains && s'.chains == Phased(s.chains, h, p) && s'.data == s.data && s'.disk == s.disk
    requires (p == Done || p == Finished) <==> (s.chains[h].phase == Done || s.chains[h].phase == Finished)
    ensures Abs(s') == Abs(s)
  {
    PhasedWaiting(s.chains, h, p, false);
    PhasedWaiting(s.chains, h, p, true);
  }

  /** Driver and device together are such a disk: every transfer happens once, as submitted, before its caller returns. */
  lemma RefinesAtomicDisk(s: Sys, s': Sys, e: Event)
    requires Inv(s) && Next(s, s', e)
    ensures AtomicNext(Abs(s), Abs(s'), e)
  {
    match e
    case Submit(h, d1, d2, req) => SubmitRefines(s, h, d1, d2, req);
    case Ring => PhaseRefines(s, s', s.hand, Ringed);
    case Bump => PhaseRefines(s, s', s.hand, Posted);
    case Take =>
      TakeFindsPosted(s);
      PhaseRefines(s, s', s.posted[0], Taken);
    case Complete(h) => CompleteRefines(s, h);
    case Intr =>
      IntrFindsCompletion(s);
      PhaseRefines(s, s', s.done[0], Finished);
    case Reap(h) => ReapRefines(s, h);
  }

  /** So every run is a run of the atomic disk. */
  lemma RunRefines(trace: seq<Sys>, events: seq<Event>, n: nat)
    requires Run(trace, events) && n < |events|
    ensures AtomicNext(Abs(trace[n]), Abs(trace[n + 1]), events[n])
  {
    RunKeepsInv(trace, events, n);
    assert Follows(trace, events, n);
    RefinesAtomicDisk(trace[n], trace[n + 1], events[n]);
  }
}
