/**
 Copying between kernel and user memory (kernel/vm.c): the bytes a process sees
 through its page table, including those of pages it has been promised but not
 yet given, and what faults and copies do to them.
 */
module VmCopy {
  import opened PageTable
  import opened VmState
  import opened VmFill
  import opened Vm

  /** The byte at va of a process of size sz; -1 if the process may not touch it. */
  ghost function View(s: State, root: nat, sz: nat, va: nat): (b: int) {
    var e := Leaf(s.tables, root, va / PGSIZE);
    if va / PGSIZE >= MAXVPN then -1
    else if e.v then (if e.perm.u && e.ppn in s.pages then s.pages[e.ppn][va % PGSIZE] else -1)
    else if va / PGSIZE * PGSIZE < sz then 0
    else -1
  }

  /** The process at root, of size sz, sees `data` at va; everything else every process sees is as in s. */
  ghost predicate ViewIs(s: State, s': State, root: nat, sz: nat, va: nat, data: seq<Byte>) {
    forall r, z: nat, x: nat {:trigger View(s', r, z, x)} {:trigger View(s, r, z, x)} :: IsRoot(s.role, r) && (r == root ==> z == sz) ==>
      View(s', r, z, x) == if r == root && va <= x < va + |data| then data[x - va] else View(s, r, z, x)
  }

  /** A page that was promised, or nothing: no process sees a difference. */
  lemma GrowsView(s: State, s': State, r: nat, z: nat, x: nat)
    requires Inv(s) && Grows(s, s') && IsRoot(s.role, r)
    ensures View(s', r, z, x) == View(s, r, z, x)
  {
    if x / PGSIZE < MAXVPN {
      assert TargetOk(s.role, Leaf(s.tables, r, x / PGSIZE), r, x / PGSIZE);
    }
  }

  lemma AddedView(s: State, s': State, root: nat, sz: nat, v: nat, p: nat, perm: Perm, r: nat, z: nat, x: nat)
    requires Inv(s) && Added(s, s', root, v, p, perm, Filled(0)) && IsRoot(s.role, r) && (r == root ==> z == sz)
    requires perm.u && v * PGSIZE < sz && v < MAXVPN && !Leaf(s.tables, root, v).v
    ensures View(s', r, z, x) == View(s, r, z, x)
  {
    if x / PGSIZE < MAXVPN {
      assert TargetOk(s.role, Leaf(s.tables, r, x / PGSIZE), r, x / PGSIZE);
    }
  }

  /** Bytes within one mapped user page. */
  lemma PageView(s: State, root: nat, sz: nat, va: nat, k: nat)
    requires va / PGSIZE < MAXVPN && va % PGSIZE + k < PGSIZE
    requires var e := Leaf(s.tables, root, va / PGSIZE); e.v && e.perm.u && e.ppn in s.pages
    ensures View(s, root, sz, va + k) == s.pages[Leaf(s.tables, root, va / PGSIZE).ppn][va % PGSIZE + k]
  {
    SamePage(va, k);
  }

  lemma SamePage(va: nat, k: nat)
    requires va % PGSIZE + k < PGSIZE
    ensures (va + k) / PGSIZE == va / PGSIZE && (va + k) % PGSIZE == va % PGSIZE + k
  {
  }

  // ---- Writing into a user page ----

  function Overlay(page: Page, at: nat, data: seq<Byte>): (r: Page)
    requires at + |data| <= PGSIZE
    ensures forall k :: 0 <= k < PGSIZE ==> r[k] == if at <= k < at + |data| then data[k - at] else page[k]
  {
    page[..at] + data + page[at + |data|..]
  }

  function Poked(s: State, p: nat, at: nat, data: seq<Byte>): (r: State)
    requires p in s.pages && at + |data| <= PGSIZE
  {
    s.(pages := s.pages[p := Overlay(s.pages[p], at, data)])
  }

  lemma PokedInv(s: State, p: nat, at: nat, data: seq<Byte>)
    requires Inv(s) && p in s.pages && at + |data| <= PGSIZE
    ensures Inv(Poked(s, p, at, data))
  {
    var r := Poked(s, p, at, data);
    assert Base(r);
    forall q | q in r.role && r.role[q].User? ensures HomeOk(r, q) {
      assert HomeOk(s, q);
    }
    forall q, v: nat | IsRoot(r.role, q) && v < SPACE ensures TargetOk(r.role, Leaf(r.tables, q, v), q, v) {
      assert TargetOk(s.role, Leaf(s.tables, q, v), q, v);
    }
  }

  /** Only the bytes written look different, and only to the process that owns the page. */
  lemma PokedView(s: State, root: nat, sz: nat, va: nat, data: seq<Byte>, r: nat, z: nat, x: nat)
    requires Inv(s) && IsRoot(s.role, root) && IsRoot(s.role, r) && va / PGSIZE < MAXVPN && va % PGSIZE + |data| <= PGSIZE
    requires var e := Leaf(s.tables, root, va / PGSIZE); e.v && e.perm.u && e.ppn in s.pages
    ensures View(Poked(s, Leaf(s.tables, root, va / PGSIZE).ppn, va % PGSIZE, data), r, z, x)
      == if r == root && va <= x < va + |data| then data[x - va] else View(s, r, z, x)
  {
    assert TargetOk(s.role, Leaf(s.tables, root, va / PGSIZE), root, va / PGSIZE);
    InPage(va, |data|, x);
    if x / PGSIZE < MAXVPN {
      assert TargetOk(s.role, Leaf(s.tables, r, x / PGSIZE), r, x / PGSIZE);
    }
  }

  lemma InPage(va: nat, n: nat, x: nat)
    requires va % PGSIZE + n <= PGSIZE
    ensures va <= x < va + n <==> x / PGSIZE == va / PGSIZE && va % PGSIZE <= x % PGSIZE < va % PGSIZE + n
    ensures x / PGSIZE == va / PGSIZE ==> x - va == x % PGSIZE - va % PGSIZE
  {
  }

  // ---- What a fault or a copy may change ----

  ghost predicate RootsKept(s: State, s': State) {
    forall r {:trigger IsRoot(s.role, r)} {:trigger IsRoot(s'.role, r)} :: IsRoot(s.role, r) <==> IsRoot(s'.role, r)
  }

  /** What was mapped still is, in the same way, and what is new can be written. */
  ghost predicate MappingsKept(s: State, s': State, root: nat) {
    forall v: nat {:trigger Leaf(s.tables, root, v)} {:trigger Leaf(s'.tables, root, v)} :: v < MAXVPN ==>
      if Leaf(s.tables, root, v).v then Leaf(s'.tables, root, v) == Leaf(s.tables, root, v)
      else Leaf(s'.tables, root, v).v ==> Leaf(s'.tables, root, v).perm.w
  }

  ghost predicate Seen(s: State, s': State, root: nat, sz: nat, va: nat, data: seq<Byte>) {
    ViewIs(s, s', root, sz, va, data) && RootsKept(s, s') && MappingsKept(s, s', root)
  }

  lemma SeenTwice(s: State, s1: State, s2: State, root: nat, sz: nat, va: nat, data: seq<Byte>, more: seq<Byte>, all: seq<Byte>)
    requires Seen(s, s1, root, sz, va, data) && Seen(s1, s2, root, sz, va + |data|, more) && all == data + more
    ensures Seen(s, s2, root, sz, va, all)
  {
    forall r, z: nat, x: nat | IsRoot(s.role, r) && (r == root ==> z == sz)
      ensures View(s2, r, z, x) == if r == root && va <= x < va + |all| then all[x - va] else View(s, r, z, x)
    {
      assert IsRoot(s1.role, r);
    }
    forall v: nat | v < MAXVPN
      ensures if Leaf(s.tables, root, v).v then Leaf(s2.tables, root, v) == Leaf(s.tables, root, v)
        else Leaf(s2.tables, root, v).v ==> Leaf(s2.tables, root, v).perm.w
    {
    }
  }

  lemma SeenNothing(s: State, root: nat, sz: nat, va: nat)
    ensures Seen(s, s, root, sz, va, [])
  {
  }

  lemma GrowsSeen(s: State, s': State, root: nat, sz: nat, va: nat)
    requires Inv(s) && Grows(s, s') && IsRoot(s.role, root)
    ensures Seen(s, s', root, sz, va, [])
  {
    forall r ensures IsRoot(s'.role, r) <==> IsRoot(s.role, r) {
      RootsSame(s.role, s'.role, r);
    }
    forall r, z: nat, x: nat | IsRoot(s.role, r) && (r == root ==> z == sz) ensures View(s', r, z, x) == View(s, r, z, x) {
      GrowsView(s, s', r, z, x);
    }
  }

  lemma AddedSeen(s: State, s': State, root: nat, sz: nat, va: nat, v: nat, p: nat, perm: Perm)
    requires Inv(s) && Added(s, s', root, v, p, perm, Filled(0)) && IsRoot(s.role, root)
    requires perm.u && perm.w && v * PGSIZE < sz && v < MAXVPN && !Leaf(s.tables, root, v).v
    ensures Seen(s, s', root, sz, va, []) && Leaf(s'.tables, root, v) == Pte(p, true, perm) && p in s'.pages
  {
    forall r, z: nat, x: nat | IsRoot(s.role, r) && (r == root ==> z == sz) ensures View(s', r, z, x) == View(s, r, z, x) {
      AddedView(s, s', root, sz, v, p, perm, r, z, x);
    }
  }

  lemma PokedSeen(s: State, root: nat, sz: nat, va: nat, data: seq<Byte>)
    requires Inv(s) && IsRoot(s.role, root) && va / PGSIZE < MAXVPN && va % PGSIZE + |data| <= PGSIZE
    requires var e := Leaf(s.tables, root, va / PGSIZE); e.v && e.perm.u && e.ppn in s.pages
    ensures Seen(s, Poked(s, Leaf(s.tables, root, va / PGSIZE).ppn, va % PGSIZE, data), root, sz, va, data)
  {
    var s' := Poked(s, Leaf(s.tables, root, va / PGSIZE).ppn, va % PGSIZE, data);
    forall r, z: nat, x: nat | IsRoot(s.role, r) && (r == root ==> z == sz)
      ensures View(s', r, z, x) == if r == root && va <= x < va + |data| then data[x - va] else View(s, r, z, x)
    {
      PokedView(s, root, sz, va, data, r, z, x);
    }
  }

  // ---- vmfault, copyin, copyout ----

  /**
   A page promised by sz and not yet there is added, zeroed; 0 exactly if there is none to add, or no
   memory for the page and its tables.
   */
  method Vmfault(m: Memory, root: nat, sz: nat, va: nat) returns (p: nat)
    requires Inv(m.St()) && IsRoot(m.role, root) && sz <= MAXVPN * PGSIZE
    modifies m
    ensures Inv(m.St()) && Seen(old(m.St()), m.St(), root, sz, va, [])
    ensures p == 0 ==> va >= sz || Leaf(old(m.tables), root, va / PGSIZE).v || |old(m.free)| < 3
    ensures p != 0 ==>
      && va < sz && !Leaf(old(m.tables), root, va / PGSIZE).v && |m.free| + 3 >= |old(m.free)|
      && Leaf(m.tables, root, va / PGSIZE) == Pte(p, true, Perm(true, true, false, true)) && p in m.pages
  {
    SeenNothing(m.St(), root, sz, va);
    if va >= sz {
      return 0;
    }
    var e := m.Lookup(root, va / PGSIZE);
    if e.v {
      return 0;
    }
    p := m.AddPage(root, va / PGSIZE, Filled(0), Perm(true, true, false, true));
    if p == 0 {
      GrowsSeen(old(m.St()), m.St(), root, sz, va);
    } else {
      AddedSeen(old(m.St()), m.St(), root, sz, va, va / PGSIZE, p, Perm(true, true, false, true));
    }
  }

  /** How many pages the n bytes from va on lie in. */
  function Pages(va: nat, n: nat): (r: nat)
    ensures n > 0 ==> r > 0
  {
    if n == 0 then 0 else (va + n - 1) / PGSIZE - va / PGSIZE + 1
  }

  /** The bytes from va on are done up to the end of a page. */
  predicate PageEnd(va: nat, i: nat) {
    i == 0 || (va + i) % PGSIZE == 0
  }

  /** How many of n bytes from va on lie in va's page. */
  function Room(va: nat, n: nat): (len: nat)
    ensures len <= n && va % PGSIZE + len <= PGSIZE && (n > 0 ==> len > 0)
    ensures len == n || (va + len) % PGSIZE == 0
  {
    if n < PGSIZE - va % PGSIZE then n else PGSIZE - va % PGSIZE
  }

  lemma PagesNext(va: nat, i: nat, n: nat)
    requires PageEnd(va, i) && 0 < n && (va + i) % PGSIZE + n <= PGSIZE
    ensures Pages(va, i + n) == Pages(va, i) + 1
    ensures (va + i + n) % PGSIZE == 0 ==> PageEnd(va, i + n)
  {
  }

  /**
   Why a copy from va on may stop at byte i: the process may not touch the byte, or may not write it,
   or its page is only promised and there are not three free pages for each page up to it.
   */
  ghost predicate Stops(s: State, root: nat, sz: nat, va: nat, i: nat, writing: bool) {
    var e := Leaf(s.tables, root, (va + i) / PGSIZE);
    || View(s, root, sz, va + i) == -1
    || (writing && e.v && !e.perm.w)
    || (!e.v && |s.free| < 3 * Pages(va, i + 1))
  }

  /** What stops the copy at the page of va + i would have stopped it from the start. */
  lemma StopsSince(s: State, s1: State, root: nat, sz: nat, va: nat, data: seq<Byte>, i: nat, writing: bool)
    requires Seen(s, s1, root, sz, va, data) && |data| <= i && IsRoot(s.role, root) && PageEnd(va, i)
    requires |s1.free| + 3 * Pages(va, i) >= |s.free| && Stops(s1, root, sz, va + i, 0, writing)
    ensures Stops(s, root, sz, va, i, writing)
  {
    PagesNext(va, i, 1);
    assert View(s1, root, sz, va + i) == View(s, root, sz, va + i);
  }

  /** The user page that holds va, faulted in if need be; 0 if there is none. */
  method Resolve(m: Memory, root: nat, sz: nat, va: nat) returns (p: nat)
    requires Inv(m.St()) && IsRoot(m.role, root) && sz <= MAXVPN * PGSIZE
    modifies m
    ensures Inv(m.St()) && Seen(old(m.St()), m.St(), root, sz, va, [])
    ensures p != 0 ==>
      && va / PGSIZE < MAXVPN && p in m.pages
      && var e := Leaf(m.tables, root, va / PGSIZE); e.v && e.perm.u && e.ppn == p
    ensures p == 0 ==> Stops(old(m.St()), root, sz, va, 0, false)
    ensures p != 0 ==> |m.free| + 3 >= |old(m.free)|
  {
    SeenNothing(m.St(), root, sz, va);
    if va / PGSIZE < MAXVPN {
      var e := m.Lookup(root, va / PGSIZE);
      assert TargetOk(m.role, Leaf(m.tables, root, va / PGSIZE), root, va / PGSIZE);
      if e.v && e.perm.u {
        return e.ppn;
      }
    }
    p := Vmfault(m, root, sz, va / PGSIZE * PGSIZE);
  }

  /** The process sees dst at va. */
  ghost predicate Reads(s: State, root: nat, sz: nat, va: nat, dst: seq<Byte>) {
    forall x: nat {:trigger View(s, root, sz, x)} :: va <= x < va + |dst| ==> View(s, root, sz, x) == dst[x - va]
  }

  lemma ReadsMore(s0: State, s: State, root: nat, sz: nat, va: nat, dst: seq<Byte>, bytes: seq<Byte>, more: seq<Byte>)
    requires IsRoot(s0.role, root) && Seen(s0, s, root, sz, va, []) && more == dst + bytes
    requires Reads(s0, root, sz, va, dst) && Reads(s, root, sz, va + |dst|, bytes)
    ensures |more| == |dst| + |bytes| && Reads(s0, root, sz, va, more)
  {
    forall x: nat | va <= x < va + |more| ensures View(s0, root, sz, x) == more[x - va] {
      assert View(s, root, sz, x) == View(s0, root, sz, x);
    }
  }

  /** Bytes of the user page that holds va, read after it was faulted in, are what the process saw before. */
  lemma PageReads(s0: State, s: State, root: nat, sz: nat, va: nat, bytes: seq<Byte>)
    requires Inv(s) && IsRoot(s0.role, root) && Seen(s0, s, root, sz, va, []) && va / PGSIZE < MAXVPN
    requires var e := Leaf(s.tables, root, va / PGSIZE);
      && e.v && e.perm.u && e.ppn in s.pages && va % PGSIZE + |bytes| <= PGSIZE
      && bytes == s.pages[e.ppn][va % PGSIZE..va % PGSIZE + |bytes|]
    ensures Reads(s0, root, sz, va, bytes)
  {
    forall x: nat | va <= x < va + |bytes| ensures View(s0, root, sz, x) == bytes[x - va] {
      PageView(s, root, sz, va, x - va);
      assert View(s, root, sz, x) == View(s0, root, sz, x);
    }
  }

  /** One page of copyin: the bytes seen from va on, up to the end of the page or n bytes. */
  method ReadPage(m: Memory, root: nat, sz: nat, va: nat, n: nat) returns (ok: bool, bytes: seq<Byte>)
    requires Inv(m.St()) && IsRoot(m.role, root) && sz <= MAXVPN * PGSIZE && 0 < n
    modifies m
    ensures Inv(m.St()) && Seen(old(m.St()), m.St(), root, sz, va, [])
    ensures ok ==> 0 < |bytes| <= n && Reads(old(m.St()), root, sz, va, bytes) && |m.free| + 3 >= |old(m.free)|
    ensures ok ==> va % PGSIZE + |bytes| <= PGSIZE && (|bytes| == n || (va + |bytes|) % PGSIZE == 0)
    ensures !ok ==> Stops(old(m.St()), root, sz, va, 0, false)
  {
    var p := Resolve(m, root, sz, va);
    if p == 0 {
      return false, [];
    }
    var len := Room(va, n);
    bytes := m.pages[p][va % PGSIZE..va % PGSIZE + len];
    PageReads(old(m.St()), m.St(), root, sz, va, bytes);
    ok := true;
  }

  lemma ReadsNext(s: State, s1: State, root: nat, sz: nat, va: nat, dst: seq<Byte>, bytes: seq<Byte>, more: seq<Byte>, n: nat)
    requires IsRoot(s.role, root) && Seen(s, s1, root, sz, va, []) && more == dst + bytes
    requires Reads(s, root, sz, va, dst) && Reads(s1, root, sz, va + |dst|, bytes) && 0 < |bytes|
    requires PageEnd(va, |dst|) && (va + |dst|) % PGSIZE + |bytes| <= PGSIZE
    requires |bytes| == n - |dst| || (va + |dst| + |bytes|) % PGSIZE == 0
    ensures |more| == |dst| + |bytes| && Reads(s, root, sz, va, more)
    ensures Pages(va, |more|) == Pages(va, |dst|) + 1 && (|more| == n || PageEnd(va, |more|))
  {
    ReadsMore(s, s1, root, sz, va, dst, bytes, more);
    PagesNext(va, |dst|, |bytes|);
  }

  /** The next page of copyin, dst being what was read since s. */
  method ReadNext(m: Memory, root: nat, sz: nat, va: nat, n: nat, dst: seq<Byte>, ghost s: State) returns (ok: bool, more: seq<Byte>)
    requires Inv(m.St()) && IsRoot(s.role, root) && sz <= MAXVPN * PGSIZE && |dst| < n
    requires Seen(s, m.St(), root, sz, va, []) && Reads(s, root, sz, va, dst)
    requires PageEnd(va, |dst|) && |m.free| + 3 * Pages(va, |dst|) >= |s.free|
    modifies m
    ensures Inv(m.St()) && Seen(s, m.St(), root, sz, va, [])
    ensures ok ==> |dst| < |more| <= n && Reads(s, root, sz, va, more) && (|more| == n || PageEnd(va, |more|))
    ensures ok ==> |m.free| + 3 * Pages(va, |more|) >= |s.free|
    ensures !ok ==> Stops(s, root, sz, va, |dst|, false)
  {
    ghost var s1 := m.St();
    assert IsRoot(m.role, root);
    var bytes;
    ok, bytes := ReadPage(m, root, sz, va + |dst|, n - |dst|);
    SeenEmpty(s, s1, m.St(), root, sz, va, va + |dst|);
    more := dst + bytes;
    if ok {
      ReadsNext(s, s1, root, sz, va, dst, bytes, more, n);
    } else {
      StopsSince(s, s1, root, sz, va, [], |dst|, false);
    }
  }

  lemma SeenEmpty(s: State, s1: State, s2: State, root: nat, sz: nat, va: nat, w: nat)
    requires Seen(s, s1, root, sz, va, []) && Seen(s1, s2, root, sz, w, [])
    ensures Seen(s, s2, root, sz, va, [])
  {
    assert Seen(s1, s2, root, sz, va, []);
    SeenTwice(s, s1, s2, root, sz, va, [], [], []);
  }

  /** Copies the n bytes the process sees at va; -1 if one of them, byte `bad`, cannot be had, for lack of access or of memory. */
  method Copyin(m: Memory, root: nat, sz: nat, va: nat, n: nat) returns (r: int, dst: seq<Byte>, ghost bad: nat)
    requires Inv(m.St()) && IsRoot(m.role, root) && sz <= MAXVPN * PGSIZE
    modifies m
    ensures Inv(m.St()) && Seen(old(m.St()), m.St(), root, sz, va, [])
    ensures r == 0 || r == -1
    ensures r == 0 ==> |dst| == n && Reads(old(m.St()), root, sz, va, dst)
    ensures r == -1 ==> bad < n && Stops(old(m.St()), root, sz, va, bad, false)
  {
    dst, bad := [], 0;
    SeenNothing(m.St(), root, sz, va);
    while |dst| < n
      invariant |dst| <= n && Inv(m.St())
      invariant Seen(old(m.St()), m.St(), root, sz, va, []) && Reads(old(m.St()), root, sz, va, dst)
      invariant |dst| == n || PageEnd(va, |dst|)
      invariant |m.free| + 3 * Pages(va, |dst|) >= |old(m.free)|
      decreases n - |dst|
    {
      var ok, more := ReadNext(m, root, sz, va, n, dst, old(m.St()));
      if !ok {
        return -1, dst, |dst|;
      }
      dst := more;
    }
    r := 0;
  }

  /** The page of va is mapped for the process. */
  ghost predicate Present(s: State, root: nat, va: nat) {
    va / PGSIZE < MAXVPN && Leaf(s.tables, root, va / PGSIZE).v && Leaf(s.tables, root, va / PGSIZE).perm.u
  }

  ghost predicate AllPresent(s: State, root: nat, lo: nat, hi: nat) {
    forall x: nat {:trigger Present(s, root, x)} :: lo <= x < hi ==> Present(s, root, x)
  }

  /** Copies data into the resolved page p of va; s0 is the memory before resolving. */
  method Poke(m: Memory, root: nat, sz: nat, va: nat, p: nat, data: seq<Byte>, ghost s0: State)
    requires Inv(m.St()) && IsRoot(m.role, root) && Seen(s0, m.St(), root, sz, va, [])
    requires va / PGSIZE < MAXVPN && va % PGSIZE + |data| <= PGSIZE && p in m.pages
    requires var e := Leaf(m.tables, root, va / PGSIZE); e.v && e.perm.u && e.ppn == p
    modifies m`pages
    ensures Inv(m.St()) && Seen(s0, m.St(), root, sz, va, data)
    ensures AllPresent(m.St(), root, va, va + |data|)
  {
    ghost var s := m.St();
    PokedInv(s, p, va % PGSIZE, data);
    PokedSeen(s, root, sz, va, data);
    SeenTwice(s0, s, Poked(s, p, va % PGSIZE, data), root, sz, va, [], data, data);
    m.pages := m.pages[p := Overlay(m.pages[p], va % PGSIZE, data)];
    forall x: nat | va <= x < va + |data| ensures Present(m.St(), root, x) {
      SamePage(va, x - va);
    }
  }

  /** One page of copyout: as much of src as fits up to the end of va's page; nothing if the page cannot be had or written. */
  method WritePage(m: Memory, root: nat, sz: nat, va: nat, src: seq<Byte>) returns (n: nat)
    requires Inv(m.St()) && IsRoot(m.role, root) && sz <= MAXVPN * PGSIZE && 0 < |src|
    modifies m
    ensures Inv(m.St()) && n <= |src| && Seen(old(m.St()), m.St(), root, sz, va, src[..n])
    ensures AllPresent(m.St(), root, va, va + n)
    ensures n > 0 ==> |m.free| + 3 >= |old(m.free)| && va % PGSIZE + n <= PGSIZE && (n == |src| || (va + n) % PGSIZE == 0)
    ensures n == 0 ==> Stops(old(m.St()), root, sz, va, 0, true)
  {
    SeenNothing(m.St(), root, sz, va);
    n := 0;
    if va / PGSIZE >= MAXVPN {
      return;
    }
    var p := Resolve(m, root, sz, va);
    if p == 0 {
      return;
    }
    var e := m.Lookup(root, va / PGSIZE);
    if !e.perm.w {
      return;
    }
    n := Room(va, |src|);
    assert IsRoot(m.role, root);
    Poke(m, root, sz, va, p, src[..n], old(m.St()));
  }

  /** The next page of copyout, i bytes being done since s. */
  method WriteNext(m: Memory, root: nat, sz: nat, va: nat, src: seq<Byte>, i: nat, ghost s: State) returns (next: nat)
    requires Inv(m.St()) && IsRoot(s.role, root) && sz <= MAXVPN * PGSIZE && i < |src|
    requires Seen(s, m.St(), root, sz, va, src[..i]) && AllPresent(m.St(), root, va, va + i)
    requires PageEnd(va, i) && |m.free| + 3 * Pages(va, i) >= |s.free|
    modifies m
    ensures Inv(m.St()) && i <= next <= |src|
    ensures Seen(s, m.St(), root, sz, va, src[..next]) && AllPresent(m.St(), root, va, va + next)
    ensures next == i ==> Stops(s, root, sz, va, i, true)
    ensures next > i ==> |m.free| + 3 * Pages(va, next) >= |s.free| && (next == |src| || PageEnd(va, next))
  {
    ghost var s1 := m.St();
    assert IsRoot(m.role, root);
    var n := WritePage(m, root, sz, va + i, src[i..]);
    next := i + n;
    Grown(s, s1, m.St(), root, sz, va, src, i, n, next);
    if n == 0 {
      StopsSince(s, s1, root, sz, va, src[..i], i, true);
    } else {
      PagesNext(va, i, n);
    }
  }

  lemma Grown(s: State, s1: State, s2: State, root: nat, sz: nat, va: nat, src: seq<Byte>, i: nat, n: nat, next: nat)
    requires i + n == next <= |src| && IsRoot(s.role, root)
    requires Seen(s, s1, root, sz, va, src[..i]) && Seen(s1, s2, root, sz, va + i, src[i..][..n])
    requires AllPresent(s1, root, va, va + i) && AllPresent(s2, root, va + i, va + i + n)
    ensures Seen(s, s2, root, sz, va, src[..next]) && AllPresent(s2, root, va, va + next)
  {
    SeenTwice(s, s1, s2, root, sz, va, src[..i], src[i..][..n], src[..next]);
    forall x: nat | va <= x < va + next ensures Present(s2, root, x) {
      if x < va + i { assert Present(s1, root, x); }
    }
  }

  /** Copies src to va: all of it if r is 0, else a prefix of `done` bytes.  No other byte of any process changes. */
  method Copyout(m: Memory, root: nat, sz: nat, va: nat, src: seq<Byte>) returns (r: int, ghost done: nat)
    requires Inv(m.St()) && IsRoot(m.role, root) && sz <= MAXVPN * PGSIZE
    modifies m
    ensures Inv(m.St()) && done <= |src| && Seen(old(m.St()), m.St(), root, sz, va, src[..done])
    ensures r == (if done == |src| then 0 else -1)
    ensures AllPresent(m.St(), root, va, va + done)
    ensures r == -1 ==> Stops(old(m.St()), root, sz, va, done, true)
  {
    var i := 0;
    SeenNothing(m.St(), root, sz, va);
    while i < |src|
      invariant 0 <= i <= |src| && Inv(m.St())
      invariant Seen(old(m.St()), m.St(), root, sz, va, src[..i]) && AllPresent(m.St(), root, va, va + i)
      invariant i == |src| || PageEnd(va, i)
      invariant |m.free| + 3 * Pages(va, i) >= |old(m.free)|
    {
      var next := WriteNext(m, root, sz, va, src, i, old(m.St()));
      if next == i {
        return -1, i;
      }
      i := next;
    }
    return 0, i;
  }

  /** What was copied out can be copied in again, and reads the same. */
  method CopyRoundTrip(m: Memory, root: nat, sz: nat, va: nat, src: seq<Byte>) returns (r: int, back: seq<Byte>)
    requires Inv(m.St()) && IsRoot(m.role, root) && sz <= MAXVPN * PGSIZE
    modifies m
    ensures Inv(m.St())
    ensures r == 0 ==> back == src && Seen(old(m.St()), m.St(), root, sz, va, src)
  {
    ghost var done, bad;
    r, done := Copyout(m, root, sz, va, src);
    back := [];
    if r == 0 {
      ghost var s := m.St();
      assert src[..done] == src && IsRoot(m.role, root);
      var r2;
      r2, back, bad := Copyin(m, root, sz, va, |src|);
      ReadsBack(old(m.St()), s, root, sz, va, src);
      SameBytes(s, root, sz, va, src, back, r2, bad);
      assert Seen(s, m.St(), root, sz, va + |src|, []);
      SeenTwice(old(m.St()), s, m.St(), root, sz, va, src, [], src);
    }
  }

  lemma ReadsBack(s0: State, s: State, root: nat, sz: nat, va: nat, src: seq<Byte>)
    requires IsRoot(s0.role, root) && Seen(s0, s, root, sz, va, src) && AllPresent(s, root, va, va + |src|)
    ensures Reads(s, root, sz, va, src)
    ensures forall i: nat :: i < |src| ==> !Stops(s, root, sz, va, i, false)
  {
    forall i: nat | i < |src| ensures View(s, root, sz, va + i) == src[i] && !Stops(s, root, sz, va, i, false) {
      assert Present(s, root, va + i);
      assert View(s, root, sz, va + i) == src[(va + i) - va];
    }
  }

  lemma SameBytes(s: State, root: nat, sz: nat, va: nat, src: seq<Byte>, back: seq<Byte>, r: int, bad: nat)
    requires Reads(s, root, sz, va, src) && forall i: nat :: i < |src| ==> !Stops(s, root, sz, va, i, false)
    requires r == 0 || r == -1
    requires r == 0 ==> |back| == |src| && Reads(s, root, sz, va, back)
    requires r == -1 ==> bad < |src| && Stops(s, root, sz, va, bad, false)
    ensures back == src
  {
    forall k: nat | k < |src| ensures back[k] == src[k] {
      assert View(s, root, sz, va + k) == src[(va + k) - va];
    }
  }

  // ---- What processes see of fork, growing and shrinking ----

  /** After uvmcopy the child sees every byte of its size that the parent sees, and the parent and everybody else what they saw. */
  lemma CopiedSees(s: State, s': State, src: nat, dst: nat, sz: nat, r: nat, z: nat, x: nat)
    requires Inv(s) && IsRoot(s.role, src) && IsRoot(s.role, dst) && Copied(s, s', src, dst, sz) && sz <= MAXVPN * PGSIZE
    ensures x < sz ==> View(s', dst, sz, x) == View(s, src, sz, x)
    ensures IsRoot(s.role, r) && r != dst ==> View(s', r, z, x) == View(s, r, z, x)
  {
    if x < sz {
      assert x / PGSIZE * PGSIZE < sz;
      assert Leaf(s'.tables, dst, x / PGSIZE) == Leaf(s'.tables, dst, x / PGSIZE);
    }
    if IsRoot(s.role, r) && r != dst && x / PGSIZE < MAXVPN {
      assert TargetOk(s.role, Leaf(s.tables, r, x / PGSIZE), r, x / PGSIZE);
    }
  }

  /** After uvmalloc a process sees zeros in the pages it got, and otherwise what it saw; nobody else sees a difference. */
  lemma ExtendedSees(s: State, s': State, root: nat, oldsz: nat, newsz: nat, perm: Perm, r: nat, z: nat, x: nat)
    requires Inv(s) && IsRoot(s.role, root) && IsRoot(s.role, r) && Extended(s, s', root, oldsz, newsz, perm) && perm.u
    requires newsz <= MAXVPN * PGSIZE
    ensures View(s', r, z, x) == if r == root && oldsz <= x / PGSIZE * PGSIZE < newsz then 0 else View(s, r, z, x)
  {
    if x / PGSIZE < MAXVPN {
      assert TargetOk(s.role, Leaf(s.tables, r, x / PGSIZE), r, x / PGSIZE);
      assert Leaf(s'.tables, r, x / PGSIZE) == Leaf(s'.tables, r, x / PGSIZE);
    }
  }

  /** After uvmunmap, or uvmdealloc, a process sees nothing in the pages unmapped, and otherwise what it saw; nobody else sees a difference. */
  lemma ClearedSees(s: State, s': State, root: nat, lo: nat, hi: nat, r: nat, z: nat, x: nat)
    requires Inv(s) && IsRoot(s.role, root) && IsRoot(s.role, r) && Cleared(s, s', root, lo, hi, true) && hi <= MAXVPN
    requires r == root ==> z <= lo * PGSIZE
    ensures View(s', r, z, x) == if r == root && lo <= x / PGSIZE < hi then -1 else View(s, r, z, x)
  {
    if x / PGSIZE < MAXVPN {
      assert TargetOk(s.role, Leaf(s.tables, r, x / PGSIZE), r, x / PGSIZE);
    }
  }
}
