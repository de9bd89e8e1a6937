/**
 Page-table and page operations of kernel/vm.c and kernel/kalloc.c, in place on
 one memory.  Addresses are page-aligned where the kernel panics otherwise, and
 stated there as preconditions.
 */
module Vm {
  import opened Counting
  import opened PageTable
  import opened VmState
  import opened VmFill
  import opened VmFree

  /** PGROUNDUP(n) / PGSIZE */
  function Up(n: nat): (r: nat) {
    (n + PGSIZE - 1) / PGSIZE
  }

  lemma UpAt(n: nat, a: nat)
    ensures a * PGSIZE < n <==> a < Up(n)
  {
  }

  /** The pages that begin in a range of bytes. */
  lemma UpRange(lo: nat, hi: nat)
    ensures forall v: nat :: lo <= v * PGSIZE < hi <==> Up(lo) <= v < Up(hi)
  {
    forall v: nat ensures lo <= v * PGSIZE < hi <==> Up(lo) <= v < Up(hi) {
      UpAt(lo, v);
      UpAt(hi, v);
    }
  }

  class Memory {
    var tables: Tables
    var pages: map<nat, Page>
    var free: seq<nat>
    ghost var role: Roles

    ghost function St(): (s: State)
      reads this
    {
      State(tables, pages, free, role)
    }

    // ---- kalloc.c ----

    /** All of `ram` on the free list. */
    constructor (ram: seq<nat>)
      requires Distinct(ram) && 0 !in ram
      ensures Inv(St()) && role.Keys == (set p | p in ram) && forall p :: p in ram ==> role[p] == Free
    {
      tables, pages, free := map[], map[], [];
      role := map p: nat | p in ram :: Free;
      new;
      var i := |ram|;
      while i > 0
        invariant 0 <= i <= |ram| && free == ram[i..]
        invariant tables == map[] && pages == map[] && role == map p: nat | p in ram :: Free
      {
        i := i - 1;
        free := [ram[i]] + free;
      }
    }

    /** Takes the first free page, filled with junk; 0 if there is none. */
    method Kalloc() returns (p: nat)
      requires Base(St())
      modifies this
      ensures Base(St()) && tables == old(tables)
      ensures if old(free) == [] then p == 0 && St() == old(St())
              else p == old(free)[0] && old(free)[0] in old(role) && St() == Taken(old(St()))
    {
      if free == [] {
        return 0;
      }
      p := free[0];
      assert p in free;
      TakenBase(St());
      free := free[1..];
      pages := pages[p := Filled(5)];
      role := role[p := Kept];
    }

    /** Puts a page back at the head of the free list. */
    method Kfree(p: nat)
      requires Base(St()) && p in role && (role[p].Kept? || role[p].User?)
      modifies this
      ensures Base(St()) && St() == Returned(old(St()), p)
    {
      ReturnedBase(St(), p);
      pages := pages - {p};
      free := [p] + free;
      role := role[p := Free];
    }

    // ---- walk ----

    /** Takes a page, zeroes it and links it; 0 if there is none. */
    method NewTable(t: nat, ix: nat) returns (n: nat)
      requires Base(St()) && t in tables && ix < 512 && role[t].level > 0 && !tables[t][ix].v
      modifies this
      ensures Base(St()) && Grows(old(St()), St())
      ensures if old(free) == [] then n == 0 && St() == old(St())
              else n == old(free)[0] != 0 && St() == WithTable(old(St()), t, ix)
    {
      if free != [] {
        TakeThenLink(St(), t, ix);
        WithTableOk(St(), t, ix);
      }
      n := Kalloc();
      if n == 0 {
        return;
      }
      tables := Linked(tables, t, ix, n);
      role := LinkedRole(role, t, ix, n);
    }

    /** One level of walk: the next table, made if need be and allowed; 0 if there is none. */
    method Down(root: nat, v: nat, t: nat, level: nat, alloc: bool) returns (n: nat)
      requires Base(St()) && IsRoot(role, root) && v < SPACE && OnWay(St(), root, v, t, level) && 0 < level
      modifies this
      ensures Base(St()) && Grows(old(St()), St()) && (!alloc ==> St() == old(St()))
      ensures n != 0 ==> OnWay(St(), root, v, n, level - 1) && |free| + 1 >= |old(free)|
      ensures n == 0 ==> Leaf(tables, root, v) == NONE && (alloc ==> free == old(free) == [])
    {
      WayDown(St(), root, v, t, level);
      var pte := tables[t][Px(level, v)];
      if pte.v {
        return pte.ppn;
      }
      if !alloc {
        return 0;
      }
      if free != [] {
        WayLinked(St(), root, v, t, level);
      }
      n := NewTable(t, Px(level, v));
    }

    /** The same, with what the walk has done since s. */
    method DownSince(root: nat, v: nat, t: nat, level: nat, alloc: bool, ghost s: State) returns (n: nat)
      requires Base(St()) && IsRoot(s.role, root) && v < SPACE && OnWay(St(), root, v, t, level) && 0 < level && Grows(s, St())
      modifies this
      ensures Base(St()) && Grows(s, St()) && (!alloc ==> St() == old(St()))
      ensures n != 0 ==> OnWay(St(), root, v, n, level - 1) && |free| + 1 >= |old(free)|
      ensures n == 0 ==> Leaf(tables, root, v) == NONE && (alloc ==> free == old(free) == [])
    {
      RootsSame(s.role, role, root);
      n := Down(root, v, t, level, alloc);
      GrowsTwice(s, old(St()), St());
    }

    /**
     The lowest-level table that holds page v's entry, 0 if there is none.  With
     `alloc` missing tables, two at most, are added, and 0 means out of memory;
     either way no root's flat map changes.
     */
    method Walk(root: nat, v: nat, alloc: bool) returns (t: nat)
      requires Base(St()) && IsRoot(role, root) && v < MAXVPN
      modifies this
      ensures Base(St()) && Grows(old(St()), St()) && (!alloc ==> St() == old(St()))
      ensures t != 0 ==> Holds(St(), root, v, t) && Leaf(tables, root, v) == EntryOf(tables[t], v % 512)
      ensures t == 0 ==> Leaf(tables, root, v) == NONE && (alloc ==> free == [] && |old(free)| < 2)
      ensures t != 0 ==> |free| + 2 >= |old(free)|
    {
      t := root;
      var level := 2;
      ghost var had := |free|;
      while level > 0
        invariant Base(St()) && Grows(old(St()), St()) && (!alloc ==> St() == old(St()))
        invariant OnWay(St(), root, v, t, level) && |free| + 2 >= had + level
      {
        t := DownSince(root, v, t, level, alloc, old(St()));
        if t == 0 {
          return;
        }
        level := level - 1;
      }
      assert Placed(tables, role, t);
    }

    /** The entry of page v, NONE if unmapped. */
    method Lookup(root: nat, v: nat) returns (pte: Pte)
      requires Base(St()) && IsRoot(role, root) && v < MAXVPN
      modifies this
      ensures St() == old(St()) && pte == Leaf(tables, root, v)
    {
      var t := Walk(root, v, false);
      pte := if t == 0 then NONE else EntryOf(tables[t], v % 512);
    }

    // ---- mappages ----

    /** Writes the entry of page lo + k in table t; s1 is the memory before the walk. */
    method PutMapped(root: nat, lo: nat, k: nat, ppn: nat, perm: Perm, t: nat, ghost s: State, ghost s1: State)
      requires Mapped(s, s1, root, lo, k, ppn, perm) && Grows(s1, St()) && Base(St())
      requires Holds(St(), root, lo + k, t) && IsLeaf(perm)
      modifies `tables
      ensures Base(St()) && Mapped(s, St(), root, lo, k + 1, ppn, perm)
    {
      MappedNext(s, s1, St(), root, lo, k, ppn, perm, t);
      tables := tables[t := tables[t][(lo + k) % 512 := Pte(ppn + k, true, perm)]];
    }

    /** One page of mappages; false if there is no memory for a table page. */
    method MapNext(root: nat, lo: nat, k: nat, ppn: nat, perm: Perm, ghost s: State) returns (ok: bool)
      requires Base(St()) && IsRoot(s.role, root) && IsLeaf(perm) && lo + k < MAXVPN
      requires Mapped(s, St(), root, lo, k, ppn, perm)
      modifies this
      ensures Base(St()) && Mapped(s, St(), root, lo, if ok then k + 1 else k, ppn, perm)
      ensures if ok then |free| + 2 >= |old(free)| else free == [] && |old(free)| < 2
    {
      RootsSame(s.role, role, root);
      var t := Walk(root, lo + k, true);
      if t == 0 {
        MappedGrows(s, old(St()), St(), root, lo, k, ppn, perm);
        return false;
      }
      PutMapped(root, lo, k, ppn, perm, t, s, old(St()));
      ok := true;
    }

    /**
     Maps n pages from page lo on to n pages from ppn on.  k is how many were
     mapped: all of them if r is 0; otherwise memory for a table page ran out.
     */
    method Mappages(root: nat, lo: nat, n: nat, ppn: nat, perm: Perm) returns (r: int, ghost k: nat)
      requires Base(St()) && IsRoot(role, root) && IsLeaf(perm) && 0 < n && lo + n <= MAXVPN
      requires forall v: nat :: lo <= v < lo + n ==> !Leaf(tables, root, v).v
      modifies this
      ensures Base(St()) && Mapped(old(St()), St(), root, lo, k, ppn, perm)
      ensures r == 0 || r == -1
      ensures if r == 0 then k == n && |free| + 2 * n >= |old(free)| else k < n && free == [] && |old(free)| < 2 * k + 2
    {
      var i := 0;
      while true
        invariant 0 <= i < n && Base(St()) && Mapped(old(St()), St(), root, lo, i, ppn, perm)
        invariant |free| + 2 * i >= |old(free)|
        decreases n - i
      {
        var ok := MapNext(root, lo, i, ppn, perm, old(St()));
        if !ok {
          return -1, i;
        }
        i := i + 1;
        if i == n {
          break;
        }
      }
      return 0, i;
    }

    // ---- uvmunmap ----

    /** Frees the user page mapped at v and clears its entry, in table t. */
    method ClearUser(root: nat, v: nat, t: nat)
      requires Inv(St()) && IsRoot(role, root) && v < MAXVPN && Holds(St(), root, v, t)
      requires Leaf(tables, root, v) == tables[t][v % 512] && tables[t][v % 512].v
      requires tables[t][v % 512].ppn in role && role[tables[t][v % 512].ppn] == User(root, v)
      modifies this
      ensures Inv(St()) && Cleared(old(St()), St(), root, v, v + 1, true)
    {
      ClearOne(St(), root, v, t);
      Kfree(tables[t][v % 512].ppn);
      tables := tables[t := tables[t][v % 512 := NONE]];
    }

    /** Clears v's entry, in table t, which maps no user page. */
    method ClearOther(root: nat, v: nat, t: nat)
      requires Inv(St()) && IsRoot(role, root) && v < MAXVPN && Holds(St(), root, v, t)
      requires Leaf(tables, root, v) == tables[t][v % 512] && tables[t][v % 512].v
      requires tables[t][v % 512].ppn in role ==> !role[tables[t][v % 512].ppn].User?
      modifies this
      ensures Inv(St()) && Cleared(old(St()), St(), root, v, v + 1, false)
    {
      ClearOnly(St(), root, v, t);
      tables := tables[t := tables[t][v % 512 := NONE]];
    }

    /** One page of uvmunmap. */
    method UnmapPage(root: nat, v: nat, doFree: bool)
      requires Inv(St()) && IsRoot(role, root) && v < MAXVPN && MayClear(St(), root, v, v + 1, doFree)
      modifies this
      ensures Inv(St()) && Cleared(old(St()), St(), root, v, v + 1, doFree)
    {
      var t := Walk(root, v, false);
      if t == 0 || !tables[t][v % 512].v {
        ClearedStart(St(), root, v, doFree);
        ClearedSkip(St(), St(), root, v, v, doFree);
        return;
      }
      assert TargetOk(role, Leaf(tables, root, v), root, v);
      if doFree {
        ClearUser(root, v, t);
      } else {
        ClearOther(root, v, t);
      }
    }

    /** The next page of uvmunmap; the rest of the range stays clearable. */
    method UnmapNext(root: nat, a: nat, hi: nat, doFree: bool)
      requires Inv(St()) && IsRoot(role, root) && a < hi <= MAXVPN && MayClear(St(), root, a, hi, doFree)
      modifies this
      ensures Inv(St()) && Cleared(old(St()), St(), root, a, a + 1, doFree)
      ensures IsRoot(role, root) && MayClear(St(), root, a + 1, hi, doFree)
    {
      UnmapPage(root, a, doFree);
      MayClearRest(old(St()), St(), root, a, a + 1, hi, doFree);
      RootCleared(old(St()), St(), root, a, a + 1, doFree);
    }

    /** Unmaps pages lo .. hi, freeing the pages if asked to. */
    method Uvmunmap(root: nat, lo: nat, hi: nat, doFree: bool)
      requires Inv(St()) && IsRoot(role, root) && lo <= hi <= MAXVPN && MayClear(St(), root, lo, hi, doFree)
      modifies this
      ensures Inv(St()) && Cleared(old(St()), St(), root, lo, hi, doFree)
      ensures RangeFreed(old(St()), St(), root, lo, hi, doFree)
    {
      UnmapPages(root, lo, hi, doFree);
      ClearedFrees(old(St()), St(), root, lo, hi, doFree);
    }

    /** uvmunmap's loop. */
    method UnmapPages(root: nat, lo: nat, hi: nat, doFree: bool)
      requires Inv(St()) && IsRoot(role, root) && lo <= hi <= MAXVPN && MayClear(St(), root, lo, hi, doFree)
      modifies this
      ensures Inv(St()) && Cleared(old(St()), St(), root, lo, hi, doFree)
    {
      var a := lo;
      ClearedStart(St(), root, lo, doFree);
      while a < hi
        invariant lo <= a <= hi && Inv(St()) && Cleared(old(St()), St(), root, lo, a, doFree)
        invariant IsRoot(role, root) && MayClear(St(), root, a, hi, doFree)
      {
        ghost var m := St();
        UnmapNext(root, a, hi, doFree);
        ClearedTwice(old(St()), m, St(), root, lo, a, a + 1, doFree);
        a := a + 1;
      }
    }

    /** A new, empty root table; 0 if there is no memory.  Other roots map what they mapped. */
    method Uvmcreate() returns (root: nat)
      requires Inv(St())
      modifies this
      ensures Inv(St()) && (root == 0 ==> St() == old(St()) && free == [])
      ensures root != 0 ==>
        && root in old(role) && old(role)[root].Free? && role == old(role)[root := Node(root, 2, 0)]
        && (forall v: nat :: v < SPACE ==> Leaf(tables, root, v) == NONE)
        && (forall r, v: nat :: IsRoot(old(role), r) && v < SPACE ==> Leaf(tables, r, v) == Leaf(old(tables), r, v))
    {
      ghost var s := St();
      if free != [] {
        RootOk(s);
      }
      root := Kalloc();
      if root != 0 {
        tables := tables[root := ZeroTable()];
        role := role[root := Node(root, 2, 0)];
        assert St() == WithRoot(s);
      }
    }

    // ---- Adding user pages ----

    /** Takes a page and fills it. */
    method Prepare(page: Page) returns (p: nat)
      requires Inv(St())
      modifies this
      ensures Base(St()) && tables == old(tables)
      ensures if p == 0 then St() == old(St()) && free == []
              else old(free) != [] && p == old(free)[0] && p in old(role) && old(role)[p].Free? && St() == Ready(old(St()), page)
    {
      if free != [] {
        ReadyOk(St(), page);
      }
      p := Kalloc();
      if p != 0 {
        pages := pages[p := page];
      }
    }

    /** Gives page p back when it could not be mapped. */
    method GiveBack(root: nat, v: nat, page: Page, perm: Perm, p: nat, ghost s: State)
      requires Inv(s) && s.free != [] && p == s.free[0] && p in s.role && IsRoot(s.role, root)
      requires Base(St()) && Mapped(Ready(s, page), St(), root, v, 0, p, perm)
      modifies this
      ensures Inv(St()) && Grows(s, St())
    {
      NotAdded(s, St(), root, v, perm, page);
      Kfree(p);
    }

    /** Records that page p, just mapped, is a user page. */
    ghost method Claim(root: nat, v: nat, page: Page, perm: Perm, p: nat, s: State)
      requires Inv(s) && s.free != [] && p == s.free[0] && p in s.role && IsRoot(s.role, root)
      requires v < MAXVPN && !Leaf(s.tables, root, v).v
      requires Base(St()) && Mapped(Ready(s, page), St(), root, v, 1, p, perm)
      modifies `role
      ensures Inv(St()) && Added(s, St(), root, v, p, perm, page)
    {
      AddedOk(s, St(), root, v, perm, page);
      role := role[p := User(root, v)];
    }

    /** Maps page p, just prepared since s, at v; gives it back if memory runs out. */
    method MapPrepared(root: nat, v: nat, page: Page, perm: Perm, p: nat, ghost s: State) returns (ok: bool)
      requires Inv(s) && s.free != [] && p == s.free[0] && p in s.role && s.role[p].Free? && St() == Ready(s, page)
      requires Base(St()) && IsRoot(s.role, root) && v < MAXVPN && !Leaf(s.tables, root, v).v && IsLeaf(perm)
      modifies this
      ensures Inv(St())
      ensures if ok then Added(s, St(), root, v, p, perm, page) && |free| + 3 >= |s.free| else Grows(s, St()) && |s.free| < 3
    {
      assert IsRoot(role, root);
      var r, k := Mappages(root, v, 1, p, perm);
      if r != 0 {
        GiveBack(root, v, page, perm, p, s);
        return false;
      }
      Claim(root, v, page, perm, p, s);
      ok := true;
    }

    /**
     Takes a page, fills it and maps it at v; 0, and nothing mapped, if memory runs out.  The page
     and its tables are three pages at most.
     */
    method AddPage(root: nat, v: nat, page: Page, perm: Perm) returns (p: nat)
      requires Inv(St()) && IsRoot(role, root) && v < MAXVPN && !Leaf(tables, root, v).v && IsLeaf(perm)
      modifies this
      ensures Inv(St())
      ensures if p == 0 then Grows(old(St()), St()) && |old(free)| < 3
              else Added(old(St()), St(), root, v, p, perm, page) && |free| + 3 >= |old(free)|
    {
      ghost var s := St();
      p := Prepare(page);
      if p == 0 {
        return;
      }
      var ok := MapPrepared(root, v, page, perm, p, s);
      if !ok {
        p := 0;
      }
    }

    /** Takes pages lo .. a back after a failure. */
    method Undo(root: nat, lo: nat, a: nat, ghost s: State, ghost s1: State, ghost want: nat -> Want)
      requires Inv(s) && Inv(St()) && IsRoot(s.role, root) && lo <= a <= MAXVPN
      requires FilledTo(s, s1, root, lo, a, want) && Grows(s1, St())
      requires forall v: nat :: lo <= v < a ==> !Leaf(s.tables, root, v).v
      modifies this
      ensures Inv(St()) && Grows(s, St())
    {
      ghost var s2 := St();
      FillMayClear(s, s1, s2, root, lo, a, want);
      FillRoots(s, s1, root, lo, a, want, root);
      RootsSame(s1.role, s2.role, root);
      Uvmunmap(root, lo, a, true);
      FillUndone(s, s1, s2, St(), root, lo, a, want);
    }

    /** One page of a range; p is 0 if memory ran out. */
    method FillPage(root: nat, lo: nat, a: nat, page: Page, perm: Perm, ghost s: State, ghost want: nat -> Want) returns (p: nat)
      requires Inv(St()) && IsRoot(s.role, root) && lo <= a < MAXVPN && IsLeaf(perm)
      requires FilledTo(s, St(), root, lo, a, want) && !Leaf(s.tables, root, a).v && want(a) == Wanted(perm, page)
      modifies this
      ensures Inv(St())
      ensures if p == 0 then Grows(old(St()), St()) && |old(free)| < 3
              else FilledTo(s, St(), root, lo, a + 1, want) && |free| + 3 >= |old(free)|
    {
      ghost var m := St();
      FillRoots(s, m, root, lo, a, want, root);
      p := AddPage(root, a, page, perm);
      if p != 0 {
        FillNext(s, m, St(), root, lo, a, want, p);
      }
    }

    /** uvmalloc's loop: zeroed pages from lo on until newsz is reached. */
    method GrowPages(root: nat, lo: nat, newsz: nat, perm: Perm) returns (ok: bool)
      requires Inv(St()) && IsRoot(role, root) && IsLeaf(perm) && lo <= Up(newsz) <= MAXVPN
      requires forall v: nat :: lo <= v < Up(newsz) ==> !Leaf(tables, root, v).v
      modifies this
      ensures Inv(St())
      ensures if ok then FilledTo(old(St()), St(), root, lo, Up(newsz), ZeroWant(perm))
              else Grows(old(St()), St()) && |old(free)| < 3 * (Up(newsz) - lo)
    {
      ghost var s, want, hi := St(), ZeroWant(perm), Up(newsz);
      var a := lo;
      FillStart(s, root, lo, want);
      UpAt(newsz, a);
      while a * PGSIZE < newsz
        invariant lo <= a <= hi && (a * PGSIZE < newsz <==> a < hi) && Inv(St()) && FilledTo(s, St(), root, lo, a, want)
        invariant |free| + 3 * (a - lo) >= |s.free|
        decreases hi - a
      {
        UpAt(newsz, a + 1);
        ghost var m := St();
        var p := FillPage(root, lo, a, Filled(0), perm, s, want);
        if p == 0 {
          Undo(root, lo, a, s, m, want);
          return false;
        }
        a := a + 1;
      }
      ok := true;
    }

    /**
     Grows a process from oldsz to newsz bytes with zeroed pages.  If memory runs
     out (ok is false), which it does not with three free pages for each page of
     the range, the pages added are taken back, and only table pages may have
     been added.
     */
    method Uvmalloc(root: nat, oldsz: nat, newsz: nat, perm: Perm) returns (r: nat, ghost ok: bool)
      requires Inv(St()) && IsRoot(role, root) && IsLeaf(perm) && Up(newsz) <= MAXVPN
      requires forall v: nat :: Up(oldsz) <= v < Up(newsz) ==> !Leaf(tables, root, v).v
      modifies this
      ensures Inv(St())
      ensures newsz < oldsz ==> r == oldsz && ok && St() == old(St())
      ensures newsz >= oldsz ==> r == if ok then newsz else 0
      ensures newsz >= oldsz && ok ==> Extended(old(St()), St(), root, oldsz, newsz, perm)
      ensures !ok ==> Grows(old(St()), St()) && |old(free)| < 3 * (Up(newsz) - Up(oldsz))
    {
      if newsz < oldsz {
        return oldsz, true;
      }
      ghost var s := St();
      var grown := GrowPages(root, Up(oldsz), newsz, perm);
      if grown {
        UpRange(oldsz, newsz);
        FilledIsExtended(s, St(), root, Up(oldsz), Up(newsz), oldsz, newsz, perm);
      }
      r, ok := if grown then newsz else 0, grown;
    }

    /** Shrinks a process: the pages wholly above newsz are unmapped and freed. */
    method Uvmdealloc(root: nat, oldsz: nat, newsz: nat) returns (r: nat)
      requires Inv(St()) && IsRoot(role, root) && Up(oldsz) <= MAXVPN
      requires MayClear(St(), root, Up(newsz), Up(oldsz), true)
      modifies this
      ensures Inv(St()) && r == if newsz < oldsz then newsz else oldsz
      ensures if Up(newsz) < Up(oldsz) then Cleared(old(St()), St(), root, Up(newsz), Up(oldsz), true) else St() == old(St())
      ensures RangeFreed(old(St()), St(), root, Up(newsz), Up(oldsz), true)
    {
      if newsz >= oldsz {
        return oldsz;
      }
      if Up(newsz) < Up(oldsz) {
        Uvmunmap(root, Up(newsz), Up(oldsz), true);
      }
      return newsz;
    }

    /** One page of uvmcopy: skipped if the parent has none; false if memory ran out. */
    method CopyPage(src: nat, dst: nat, a: nat, ghost s: State) returns (ok: bool)
      requires Inv(s) && Inv(St()) && IsRoot(s.role, src) && IsRoot(s.role, dst) && src != dst && a < MAXVPN
      requires FilledTo(s, St(), dst, 0, a, CopyWant(s, src)) && !Leaf(s.tables, dst, a).v
      requires var e := Leaf(s.tables, src, a); e.v ==> e.ppn in s.role && s.role[e.ppn].User?
      modifies this
      ensures Inv(St())
      ensures if ok then FilledTo(s, St(), dst, 0, a + 1, CopyWant(s, src)) && |free| + 3 >= |old(free)|
              else Grows(old(St()), St()) && |old(free)| < 3
    {
      ghost var m, want := St(), CopyWant(s, src);
      SourceStays(s, m, src, dst, 0, a, want, a);
      FillRoots(s, m, dst, 0, a, want, src);
      var pte := Lookup(src, a);
      if !pte.v {
        FillSkip(s, m, dst, 0, a, want);
        return true;
      }
      LeafPerm(m, src, a);
      var p := FillPage(dst, 0, a, pages[pte.ppn], pte.perm, s, want);
      ok := p != 0;
    }

    /**
     Copies the first sz bytes' pages of src into dst: fresh pages, same contents
     and permissions.  On failure (-1), which takes fewer than three free pages
     for each page of the range, what was copied is taken back.
     */
    method Uvmcopy(src: nat, dst: nat, sz: nat) returns (r: int)
      requires Inv(St()) && IsRoot(role, src) && IsRoot(role, dst) && src != dst && Up(sz) <= MAXVPN
      requires MayClear(St(), src, 0, Up(sz), true)
      requires forall v: nat :: v < Up(sz) ==> !Leaf(tables, dst, v).v
      modifies this
      ensures Inv(St()) && (r == 0 || r == -1)
      ensures if r == 0 then Copied(old(St()), St(), src, dst, sz) else Grows(old(St()), St()) && |old(free)| < 3 * Up(sz)
    {
      var ok := CopyPages(src, dst, sz);
      if !ok {
        return -1;
      }
      UpRange(0, sz);
      FilledIsCopied(old(St()), St(), src, dst, Up(sz), sz);
      return 0;
    }

    /** uvmcopy's loop. */
    method CopyPages(src: nat, dst: nat, sz: nat) returns (ok: bool)
      requires Inv(St()) && IsRoot(role, src) && IsRoot(role, dst) && src != dst && Up(sz) <= MAXVPN
      requires MayClear(St(), src, 0, Up(sz), true)
      requires forall v: nat :: v < Up(sz) ==> !Leaf(tables, dst, v).v
      modifies this
      ensures Inv(St())
      ensures if ok then FilledTo(old(St()), St(), dst, 0, Up(sz), CopyWant(old(St()), src))
              else Grows(old(St()), St()) && |old(free)| < 3 * Up(sz)
    {
      ghost var s, want := St(), CopyWant(St(), src);
      var i := 0;
      FillStart(s, dst, 0, want);
      while i * PGSIZE < sz
        invariant 0 <= i <= Up(sz) && Inv(St()) && FilledTo(s, St(), dst, 0, i, want)
        invariant |free| + 3 * i >= |s.free|
        decreases Up(sz) - i
      {
        ghost var m := St();
        ok := CopyPage(src, dst, i, s);
        if !ok {
          Undo(dst, 0, i, s, m, want);
          return;
        }
        i := i + 1;
      }
      ok := true;
    }

    // ---- Freeing a page table ----

    /** Frees the child at entry i of t and clears the entry. */
    method FreeChild(t: nat, i: nat, child: nat, ghost s0: State, ghost s: State) returns (ok: bool)
      requires Base(s0) && t in s0.tables && i < 512 && Intact(s0, s, s0.role[t]) && NoLeaves(s0, s0.role[t])
      requires s0.role[t].level > 0 && child in s0.tables
      requires s0.role[child] == Node(s0.role[t].root, s0.role[t].level - 1, s0.role[t].prefix * 512 + i)
      requires Gone(s, St(), Part(s0.role, s0.role[t], i), t) && FreeOk(free, role) && t in tables
      modifies this
      ensures ok && Gone(s, St(), Part(s0.role, s0.role[t], i + 1), t) && FreeOk(free, role)
      ensures t in tables && tables[t] == old(tables[t])[i := NONE]
      decreases s0.role[t].level, 0
    {
      ghost var m := St();
      ChildIntact(s0, s, m, t, i);
      ChildNoLeaves(s0, s0.role[t], i);
      ok := Freewalk(child, s0);
      ChildGone(s0, s, m, St(), t, i, child);
      tables := tables[t := tables[t][i := NONE]];
    }

    /** Frees what entry i of t leads to; ok is false where the kernel panics on a leaf. */
    method FreeEntry(t: nat, i: nat, ghost s0: State, ghost s: State) returns (ok: bool)
      requires Base(s0) && t in s0.tables && i < 512 && Intact(s0, s, s0.role[t]) && NoLeaves(s0, s0.role[t])
      requires Gone(s, St(), Part(s0.role, s0.role[t], i), t) && FreeOk(free, role)
      requires t in tables && tables[t][i..] == s0.tables[t][i..]
      modifies this
      ensures ok && Gone(s, St(), Part(s0.role, s0.role[t], i + 1), t) && FreeOk(free, role)
      ensures t in tables && tables[t][i + 1..] == s0.tables[t][i + 1..]
      decreases s0.role[t].level, 1
    {
      var pte := tables[t][i];
      EntryCase(s0, t, i, tables[t]);
      ok := true;
      if pte.v && !IsLeaf(pte.perm) {
        ok := FreeChild(t, i, pte.ppn, s0, s);
      } else if pte.v {
        ok := false;
      }
    }

    /** Frees table t and the tables under it, each once; s0 is the memory before any of it. */
    method Freewalk(t: nat, ghost s0: State) returns (ok: bool)
      requires Base(s0) && t in s0.tables && Intact(s0, St(), s0.role[t]) && NoLeaves(s0, s0.role[t])
      requires FreeOk(free, role)
      modifies this
      ensures ok && Gone(old(St()), St(), Sub(s0.role, s0.role[t]), t) && FreeOk(free, role)
      decreases s0.role[t].level, 2
    {
      ghost var s := St();
      assert Under(s0.role, t, s0.role[t]);
      PartNone(s0.role, s0.role[t], 0);
      ok := true;
      for i := 0 to 512
        invariant ok && Gone(s, St(), Part(s0.role, s0.role[t], i), t) && FreeOk(free, role)
        invariant t in tables && tables[t][i..] == s0.tables[t][i..]
      {
        var done := FreeEntry(t, i, s0, s);
        ok := ok && done;
      }
      PartAll(s0, t);
      ghost var m := St();
      PushOk(free, role, t);
      tables := tables - {t};
      free := [t] + free;
      role := role[t := Free];
      GoneLast(s, m, St(), Part(s0.role, s0.role[t], 512), t);
    }

    /**
     Frees a process's memory: every page its root maps and every table under the
     root becomes free, each once, and the rest of memory is as before.
     */
    method Uvmfree(root: nat, sz: nat) returns (ok: bool)
      requires Inv(St()) && IsRoot(role, root) && Up(sz) <= MAXVPN
      requires MayClear(St(), root, 0, Up(sz), true)
      requires forall v: nat :: Up(sz) <= v < SPACE ==> !Leaf(tables, root, v).v
      modifies this
      ensures ok && Inv(St()) && role.Keys == old(role).Keys
      ensures forall p :: p in old(role) ==> role[p] == FreedRole(old(role)[p], root)
      ensures forall p :: p in free <==> p in old(free) || (p in old(role) && (old(role)[p].Node? || old(role)[p].User?) && old(role)[p].root == root)
      ensures forall v: nat :: v < Up(sz) && Leaf(old(tables), root, v).v ==> Leaf(old(tables), root, v).ppn in free
      ensures forall r, v: nat :: r != root && IsRoot(old(role), r) && v < SPACE ==> Leaf(tables, r, v) == Leaf(old(tables), r, v)
    {
      ghost var s := St();
      ClearedStart(s, root, 0, true);
      if sz > 0 {
        Uvmunmap(root, 0, Up(sz), true);
      }
      ghost var m := St();
      RootEmpty(m, root);
      ok := Freewalk(root, m);
      GoneInv(m, St(), root);
      FreeRoles(s, m, St(), root, Up(sz));
    }
  }
}
