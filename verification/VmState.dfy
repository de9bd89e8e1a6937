/**
 The memory kernel/vm.c and kernel/kalloc.c share: page tables, the contents of
 data pages and the free list.  `role` says what each allocatable page is for,
 so that free, table, user and otherwise kept pages partition memory by
 construction; the invariant says the other three agree with it.
 */
module VmState {
  import opened Counting
  import opened PageTable

  type Byte = b: int | 0 <= b < 256
  type Page = p: seq<Byte> | |p| == 4096 witness seq(4096, _ => 0)

  datatype State = State(tables: Tables, pages: map<nat, Page>, free: seq<nat>, role: Roles)

  function Filled(b: Byte): (p: Page)
    ensures forall k :: 0 <= k < 4096 ==> p[k] == b
  {
    seq(4096, _ => b)
  }

  /** Table, data and free pages are where the roles say. */
  ghost predicate Base(s: State) {
    && TablesOk(s.tables, s.role) && 0 !in s.role
    && Distinct(s.free) && (forall p :: p in s.free ==> p in s.role && s.role[p].Free?)
    && (forall p :: p in s.role && s.role[p].Free? ==> p in s.free)
    && (forall p :: p in s.role && (s.role[p].User? || s.role[p].Kept?) ==> p in s.pages)
  }

  /** What a root's entry for v may be: a user page is mapped once, and free and table pages never. */
  ghost predicate TargetOk(role: Roles, pte: Pte, r: nat, v: nat) {
    pte.v ==>
      && (pte.ppn in role ==> role[pte.ppn].Kept? || role[pte.ppn] == User(r, v))
      && (pte.perm.u ==> pte.ppn in role && role[pte.ppn] == User(r, v))
  }

  /** A user page is mapped where its role says. */
  ghost predicate HomeOk(s: State, p: nat)
    requires p in s.role && s.role[p].User?
  {
    var h := s.role[p];
    && IsRoot(s.role, h.root) && h.vpn < MAXVPN
    && Leaf(s.tables, h.root, h.vpn).v && Leaf(s.tables, h.root, h.vpn).ppn == p
  }

  ghost predicate UserOk(s: State) {
    && (forall p {:trigger HomeOk(s, p)} :: p in s.role && s.role[p].User? ==> HomeOk(s, p))
    && (forall r, v: nat {:trigger Leaf(s.tables, r, v)} :: IsRoot(s.role, r) && v < SPACE ==>
          TargetOk(s.role, Leaf(s.tables, r, v), r, v))
  }

  ghost predicate Inv(s: State) {
    Base(s) && UserOk(s)
  }

  // ---- Changes that leave the flat maps alone ----

  /** Free pages may become table pages; every other role is as before. */
  ghost predicate RoleGrows(role: Roles, role': Roles) {
    && role'.Keys == role.Keys
    && forall p {:trigger role'[p]} {:trigger role[p]} :: p in role ==>
         role'[p] == role[p] || (role[p].Free? && role'[p].Node? && role'[p].level < 2)
  }

  ghost predicate PagesKept(s: State, s': State) {
    forall p :: p in s.role && (s.role[p].User? || s.role[p].Kept?) && p in s.pages ==> p in s'.pages && s'.pages[p] == s.pages[p]
  }

  ghost predicate SameLeaves(s: State, s': State) {
    forall r, v: nat {:trigger Leaf(s'.tables, r, v)} {:trigger Leaf(s.tables, r, v)} ::
      IsRoot(s.role, r) && v < SPACE ==> Leaf(s'.tables, r, v) == Leaf(s.tables, r, v)
  }

  ghost predicate Grows(s: State, s': State) {
    RoleGrows(s.role, s'.role) && PagesKept(s, s') && SameLeaves(s, s')
  }

  lemma RootsSame(role: Roles, role': Roles, r: nat)
    requires RoleGrows(role, role')
    ensures IsRoot(role', r) <==> IsRoot(role, r)
  {
  }

  lemma GrowsTwice(s: State, s': State, s'': State)
    requires Grows(s, s') && Grows(s', s'')
    ensures Grows(s, s'')
  {
    forall r, v: nat | IsRoot(s.role, r) && v < SPACE ensures Leaf(s''.tables, r, v) == Leaf(s.tables, r, v) {
      RootsSame(s.role, s'.role, r);
    }
  }

  /** So user pages stay mapped exactly once. */
  lemma GrowsUser(s: State, s': State)
    requires UserOk(s) && Grows(s, s')
    ensures UserOk(s')
  {
    forall p | p in s'.role && s'.role[p].User? ensures HomeOk(s', p) {
      assert HomeOk(s, p);
    }
    forall r, v: nat | IsRoot(s'.role, r) && v < SPACE ensures TargetOk(s'.role, Leaf(s'.tables, r, v), r, v) {
      RootsSame(s.role, s'.role, r);
    }
  }

  // ---- kalloc, kfree ----

  /** The state after taking the first free page. */
  function Taken(s: State): (r: State)
    requires s.free != [] && s.free[0] in s.role
  {
    State(s.tables, s.pages[s.free[0] := Filled(5)], s.free[1..], s.role[s.free[0] := Kept])
  }

  lemma TakenBase(s: State)
    requires Base(s) && s.free != []
    ensures Base(Taken(s))
  {
    var n, r := s.free[0], Taken(s);
    assert n in s.free;
    forall p | p in r.free ensures p in r.role && r.role[p].Free? {
      assert p in s.free;
    }
    forall p | p in r.role && r.role[p].Free? ensures p in r.free {
      assert p in s.free && p != n;
    }
    TablesOkRole(s.tables, s.role, r.role);
  }

  /** Tables stay well formed when only pages that are no tables change roles. */
  lemma TablesOkRole(tables: Tables, role: Roles, role': Roles)
    requires TablesOk(tables, role)
    requires forall p :: p in role && role[p].Node? ==> p in role' && role'[p] == role[p]
    requires forall p :: p in role' && role'[p].Node? ==> p in role && role[p] == role'[p]
    ensures TablesOk(tables, role')
  {
    forall t | t in tables ensures Placed(tables, role', t) {
      assert Placed(tables, role, t);
    }
    forall t, ix: nat | t in tables && ix < 512 ensures EntryFits(tables, role', t, ix) {
      assert EntryFits(tables, role, t, ix);
    }
  }

  lemma TakenUser(s: State)
    requires Inv(s) && s.free != []
    ensures UserOk(Taken(s))
  {
    var n, r := s.free[0], Taken(s);
    assert n in s.free;
    forall p | p in r.role && r.role[p].User? ensures HomeOk(r, p) {
      assert HomeOk(s, p);
    }
    forall q, v: nat | IsRoot(r.role, q) && v < SPACE ensures TargetOk(r.role, Leaf(r.tables, q, v), q, v) {
      assert TargetOk(s.role, Leaf(s.tables, q, v), q, v);
    }
  }

  /** The state after giving page p back. */
  function Returned(s: State, p: nat): (r: State) {
    State(s.tables, s.pages - {p}, [p] + s.free, s.role[p := Free])
  }

  ghost predicate Unmapped(s: State, p: nat) {
    forall r, v: nat {:trigger Leaf(s.tables, r, v)} :: IsRoot(s.role, r) && v < SPACE && Leaf(s.tables, r, v).v ==> Leaf(s.tables, r, v).ppn != p
  }

  lemma ReturnedBase(s: State, p: nat)
    requires Base(s) && p in s.role && (s.role[p].Kept? || s.role[p].User?)
    ensures Base(Returned(s, p))
  {
    var r := Returned(s, p);
    TablesOkRole(s.tables, s.role, r.role);
    forall q | q in r.role && r.role[q].Free? ensures q in r.free {
      assert q == p || q in s.free;
    }
    forall q | q in r.free ensures q in r.role && r.role[q].Free? {
      assert q == p || q in s.free;
    }
    assert p !in s.free;
  }

  lemma ReturnedUser(s: State, p: nat)
    requires Inv(s) && p in s.role && s.role[p].Kept? && Unmapped(s, p)
    ensures UserOk(Returned(s, p))
  {
    var r := Returned(s, p);
    forall q | q in r.role && r.role[q].User? ensures HomeOk(r, q) {
      assert HomeOk(s, q);
    }
    forall q, v: nat | IsRoot(r.role, q) && v < SPACE ensures TargetOk(r.role, Leaf(r.tables, q, v), q, v) {
      assert TargetOk(s.role, Leaf(s.tables, q, v), q, v);
    }
  }

  // ---- A new table page ----

  /** The state after linking the first free page as a table at entry ix of t. */
  function WithTable(s: State, t: nat, ix: nat): (r: State)
    requires s.free != [] && t in s.tables && ix < 512 && t in s.role && s.role[t].Node? && s.role[t].level > 0
  {
    State(Linked(s.tables, t, ix, s.free[0]), s.pages[s.free[0] := Filled(5)], s.free[1..], LinkedRole(s.role, t, ix, s.free[0]))
  }

  lemma WithTableOk(s: State, t: nat, ix: nat)
    requires Base(s) && s.free != [] && t in s.tables && ix < 512 && s.role[t].level > 0 && !s.tables[t][ix].v
    ensures Base(WithTable(s, t, ix)) && Grows(s, WithTable(s, t, ix))
  {
    var n, r := s.free[0], WithTable(s, t, ix);
    assert n in s.free;
    LinkKeeps(s.tables, s.role, t, ix, n);
    forall p | p in r.free ensures p in r.role && r.role[p].Free? {
      assert p in s.free;
    }
    forall p | p in r.role && r.role[p].Free? ensures p in r.free {
      assert p in s.free && p != n;
    }
    forall q, v: nat | IsRoot(s.role, q) && v < SPACE ensures Leaf(r.tables, q, v) == Leaf(s.tables, q, v) {
      LinkLeaf(s.tables, s.role, t, ix, n, q, v);
    }
    assert s.role[t].level - 1 < 2;
  }

  lemma TakeThenLink(s: State, t: nat, ix: nat)
    requires Base(s) && s.free != [] && t in s.tables && ix < 512 && s.role[t].level > 0
    ensures var n, m := s.free[0], Taken(s);
      && n != 0 && n in s.role && t in m.role && m.role[t] == s.role[t]
      && State(Linked(m.tables, t, ix, n), m.pages, m.free, LinkedRole(m.role, t, ix, n)) == WithTable(s, t, ix)
  {
    assert s.free[0] in s.free;
  }

  // ---- Writing one leaf ----

  /** The table that holds the entry of page v. */
  ghost predicate Holds(s: State, root: nat, v: nat, t: nat) {
    t in s.tables && t in s.role && s.role[t] == Node(root, 0, v / 512)
  }

  function Put(s: State, t: nat, v: nat, pte: Pte): (r: State)
    requires t in s.tables
  {
    s.(tables := Stored(s.tables, t, v % 512, pte))
  }

  lemma PutBase(s: State, root: nat, v: nat, t: nat, pte: Pte)
    requires Base(s) && Holds(s, root, v, t) && (pte.v ==> IsLeaf(pte.perm))
    ensures Base(Put(s, t, v, pte))
  {
    StoreKeeps(s.tables, s.role, t, v % 512, pte);
  }

  lemma PutLeaf(s: State, root: nat, v: nat, t: nat, pte: Pte, r: nat, u: nat)
    requires Base(s) && Holds(s, root, v, t) && IsRoot(s.role, r) && u < SPACE
    ensures Leaf(Put(s, t, v, pte).tables, r, u)
      == if r == root && u == v then (if pte.v then pte else NONE) else Leaf(s.tables, r, u)
  {
    StoreLeaf(s.tables, s.role, t, v % 512, pte, r, u);
    assert v / 512 * 512 + v % 512 == v;
  }

  /** The table holding v's entry, if there is one, is the one a walk ends at. */
  lemma HolderFound(s: State, root: nat, v: nat)
    requires Base(s) && IsRoot(s.role, root) && v < SPACE
    ensures var t := TableAt(s.tables, root, 0, v / 512);
      if t in s.tables then Holds(s, root, v, t) && Leaf(s.tables, root, v) == EntryOf(s.tables[t], v % 512)
      else t == 0 && Leaf(s.tables, root, v) == NONE
  {
    TableAtFound(s.tables, s.role, root, 0, v / 512);
  }

  /** Table t is on the way from root to page v's entry. */
  ghost predicate OnWay(s: State, root: nat, v: nat, t: nat, level: nat) {
    level <= 2 && t in s.tables && t in s.role && s.role[t] == Node(root, level, Pre(level, v))
  }

  lemma WayDown(s: State, root: nat, v: nat, t: nat, level: nat)
    requires Base(s) && OnWay(s, root, v, t, level) && 0 < level && v < SPACE
    ensures var e := s.tables[t][Px(level, v)];
      if e.v then OnWay(s, root, v, e.ppn, level - 1) else Leaf(s.tables, root, v) == NONE
  {
    PreStep(level, v);
    assert EntryFits(s.tables, s.role, t, Px(level, v)) && Placed(s.tables, s.role, t);
    assert TableAt(s.tables, root, level - 1, Pre(level - 1, v)) == Child(s.tables[t], Px(level, v));
    if level == 2 { PreStep(1, v); }
  }

  lemma WayLinked(s: State, root: nat, v: nat, t: nat, level: nat)
    requires Base(s) && OnWay(s, root, v, t, level) && 0 < level && s.free != [] && !s.tables[t][Px(level, v)].v
    ensures OnWay(WithTable(s, t, Px(level, v)), root, v, s.free[0], level - 1)
  {
    PreStep(level, v);
  }

  // ---- Mapping a range ----

  /** Pages lo .. lo+n of root lead to ppn, ppn+1, ..., and nothing else has changed but table pages. */
  ghost predicate Mapped(s: State, s': State, root: nat, lo: nat, n: nat, ppn: nat, perm: Perm) {
    && RoleGrows(s.role, s'.role) && PagesKept(s, s')
    && forall r, v: nat {:trigger Leaf(s'.tables, r, v)} {:trigger Leaf(s.tables, r, v)} :: IsRoot(s.role, r) && v < SPACE ==>
         Leaf(s'.tables, r, v) == if r == root && lo <= v < lo + n then Pte(ppn + v - lo, true, perm) else Leaf(s.tables, r, v)
  }

  lemma RoleGrowsTwice(role: Roles, role': Roles, role'': Roles)
    requires RoleGrows(role, role') && RoleGrows(role', role'')
    ensures RoleGrows(role, role'')
  {
  }

  lemma PagesKeptTwice(s: State, s': State, s'': State)
    requires RoleGrows(s.role, s'.role) && PagesKept(s, s') && PagesKept(s', s'')
    ensures PagesKept(s, s'')
  {
  }

  lemma MappedLeaf(s: State, s1: State, s2: State, root: nat, lo: nat, n: nat, ppn: nat, perm: Perm, t: nat, r: nat, v: nat)
    requires Mapped(s, s1, root, lo, n, ppn, perm) && Grows(s1, s2) && Base(s2)
    requires Holds(s2, root, lo + n, t) && IsRoot(s.role, r) && v < SPACE
    ensures Leaf(Put(s2, t, lo + n, Pte(ppn + n, true, perm)).tables, r, v)
      == if r == root && lo <= v < lo + (n + 1) then Pte(ppn + v - lo, true, perm) else Leaf(s.tables, r, v)
  {
    RootsSame(s.role, s1.role, r);
    RootsSame(s1.role, s2.role, r);
    PutLeaf(s2, root, lo + n, t, Pte(ppn + n, true, perm), r, v);
    assert Leaf(s2.tables, r, v) == Leaf(s1.tables, r, v);
  }

  lemma MappedNext(s: State, s1: State, s2: State, root: nat, lo: nat, n: nat, ppn: nat, perm: Perm, t: nat)
    requires Mapped(s, s1, root, lo, n, ppn, perm) && Grows(s1, s2) && Base(s2)
    requires Holds(s2, root, lo + n, t) && IsLeaf(perm)
    ensures Mapped(s, Put(s2, t, lo + n, Pte(ppn + n, true, perm)), root, lo, n + 1, ppn, perm)
    ensures Base(Put(s2, t, lo + n, Pte(ppn + n, true, perm)))
  {
    PutBase(s2, root, lo + n, t, Pte(ppn + n, true, perm));
    RoleGrowsTwice(s.role, s1.role, s2.role);
    PagesKeptTwice(s, s1, s2);
    var s3 := Put(s2, t, lo + n, Pte(ppn + n, true, perm));
    assert PagesKept(s, s3);
    forall r, v: nat | IsRoot(s.role, r) && v < SPACE
      ensures Leaf(s3.tables, r, v)
        == if r == root && lo <= v < lo + (n + 1) then Pte(ppn + v - lo, true, perm) else Leaf(s.tables, r, v)
    {
      MappedLeaf(s, s1, s2, root, lo, n, ppn, perm, t, r, v);
    }
  }

  lemma MappedGrows(s: State, s1: State, s2: State, root: nat, lo: nat, n: nat, ppn: nat, perm: Perm)
    requires Mapped(s, s1, root, lo, n, ppn, perm) && Grows(s1, s2)
    ensures Mapped(s, s2, root, lo, n, ppn, perm)
  {
    RoleGrowsTwice(s.role, s1.role, s2.role);
    PagesKeptTwice(s, s1, s2);
    forall r, v: nat | IsRoot(s.role, r) && v < SPACE ensures Leaf(s2.tables, r, v) == Leaf(s1.tables, r, v) {
      RootsSame(s.role, s1.role, r);
    }
  }

  /** The state with a mapped page's role recorded. */
  function Owned(s: State, p: nat, root: nat, v: nat): (r: State) {
    s.(role := s.role[p := User(root, v)])
  }

  lemma MapHome(s: State, s': State, root: nat, v: nat, p: nat, perm: Perm, q: nat)
    requires UserOk(s) && IsRoot(s.role, root) && v < MAXVPN && p in s.role && s.role[p].Kept?
    requires Mapped(s, s', root, v, 1, p, perm) && !Leaf(s.tables, root, v).v
    requires q in s'.role && (q == p || s'.role[q].User?)
    ensures HomeOk(Owned(s', p, root, v), q)
  {
    if q != p { assert HomeOk(s, q); }
  }

  lemma MapTarget(s: State, s': State, root: nat, v: nat, p: nat, perm: Perm, q: nat, u: nat)
    requires UserOk(s) && v < MAXVPN && p in s.role && s.role[p].Kept? && Unmapped(s, p)
    requires Mapped(s, s', root, v, 1, p, perm) && IsRoot(s'.role, q) && u < SPACE
    ensures TargetOk(Owned(s', p, root, v).role, Leaf(s'.tables, q, u), q, u)
  {
    RootsSame(s.role, s'.role, q);
    assert TargetOk(s.role, Leaf(s.tables, q, u), q, u);
    var e := Leaf(s.tables, q, u);
    if e.v && e.ppn in s.role {
      assert s'.role[e.ppn] == s.role[e.ppn];
    }
  }

  /** Mapping a page that nothing maps yet makes it that root's user page. */
  lemma MapUser(s: State, s': State, root: nat, v: nat, p: nat, perm: Perm)
    requires Inv(s) && Base(s') && IsRoot(s.role, root) && v < MAXVPN
    requires p in s.role && s.role[p].Kept? && Unmapped(s, p)
    requires Mapped(s, s', root, v, 1, p, perm) && !Leaf(s.tables, root, v).v
    ensures Inv(Owned(s', p, root, v))
  {
    var r := Owned(s', p, root, v);
    assert s'.role[p] == s.role[p];
    assert Base(r) by {
      TablesOkRole(s'.tables, s'.role, r.role);
    }
    assert UserOk(r) by {
      forall q | q in r.role && r.role[q].User? ensures HomeOk(r, q) {
        MapHome(s, s', root, v, p, perm, q);
      }
      forall q, u: nat | IsRoot(r.role, q) && u < SPACE ensures TargetOk(r.role, Leaf(r.tables, q, u), q, u) {
        MapTarget(s, s', root, v, p, perm, q, u);
      }
    }
  }

  // ---- Unmapping a range ----

  /** Pages lo .. hi of root are unmapped, their user pages freed if doFree, and nothing else has changed. */
  ghost predicate Cleared(s: State, s': State, root: nat, lo: nat, hi: nat, doFree: bool) {
    && s'.role.Keys == s.role.Keys
    && (forall p {:trigger s'.role[p]} {:trigger s.role[p]} :: p in s.role ==> s'.role[p] == ClearedRole(s.role[p], root, lo, hi, doFree))
    && (forall p :: p in s.role && (s'.role[p].User? || s'.role[p].Kept?) && p in s.pages ==> p in s'.pages && s'.pages[p] == s.pages[p])
    && forall r, v: nat {:trigger Leaf(s'.tables, r, v)} {:trigger Leaf(s.tables, r, v)} :: IsRoot(s.role, r) && v < SPACE ==>
         Leaf(s'.tables, r, v) == if r == root && lo <= v < hi then NONE else Leaf(s.tables, r, v)
  }

  function ClearedRole(x: Role, root: nat, lo: nat, hi: nat, doFree: bool): (r: Role) {
    if doFree && x.User? && x.root == root && lo <= x.vpn < hi then Free else x
  }

  lemma RootCleared(s: State, s': State, root: nat, lo: nat, hi: nat, doFree: bool)
    requires Cleared(s, s', root, lo, hi, doFree) && IsRoot(s.role, root)
    ensures IsRoot(s'.role, root)
  {
  }

  lemma ClearedStart(s: State, root: nat, lo: nat, doFree: bool)
    ensures Cleared(s, s, root, lo, lo, doFree)
  {
  }

  /** An unmapped page is skipped. */
  lemma ClearedSkip(s: State, s1: State, root: nat, lo: nat, a: nat, doFree: bool)
    requires Inv(s) && Cleared(s, s1, root, lo, a, doFree) && IsRoot(s.role, root) && lo <= a < SPACE
    requires Leaf(s1.tables, root, a) == NONE
    ensures Cleared(s, s1, root, lo, a + 1, doFree)
  {
    assert Leaf(s.tables, root, a) == NONE;
    forall p | p in s.role ensures s1.role[p] == ClearedRole(s.role[p], root, lo, a + 1, doFree) {
      if s.role[p].User? { assert HomeOk(s, p); }
    }
  }

  lemma ClearOne(s: State, root: nat, a: nat, t: nat)
    requires Inv(s) && IsRoot(s.role, root) && a < MAXVPN && Holds(s, root, a, t)
    requires var e := Leaf(s.tables, root, a); e.v && e.ppn in s.role && s.role[e.ppn] == User(root, a)
    ensures var p := Leaf(s.tables, root, a).ppn;
      Inv(Put(Returned(s, p), t, a, NONE)) && Cleared(s, Put(Returned(s, p), t, a, NONE), root, a, a + 1, true)
  {
    var p := Leaf(s.tables, root, a).ppn;
    var m := Returned(s, p);
    ReturnedBase(s, p);
    PutBase(m, root, a, t, NONE);
    var r := Put(m, t, a, NONE);
    forall q, u: nat | IsRoot(s.role, q) && u < SPACE
      ensures Leaf(r.tables, q, u) == if q == root && u == a then NONE else Leaf(s.tables, q, u)
    {
      PutLeaf(m, root, a, t, NONE, q, u);
    }
    forall q | q in s.role ensures r.role[q] == ClearedRole(s.role[q], root, a, a + 1, true) {
      if s.role[q].User? { assert HomeOk(s, q); }
    }
    ClearedInv(s, r, root, a, a + 1, true);
  }

  lemma ClearOnly(s: State, root: nat, a: nat, t: nat)
    requires Inv(s) && IsRoot(s.role, root) && a < MAXVPN && Holds(s, root, a, t)
    requires var e := Leaf(s.tables, root, a); e.v && (e.ppn in s.role ==> !s.role[e.ppn].User?)
    ensures Inv(Put(s, t, a, NONE)) && Cleared(s, Put(s, t, a, NONE), root, a, a + 1, false)
  {
    PutBase(s, root, a, t, NONE);
    var r := Put(s, t, a, NONE);
    forall q, u: nat | IsRoot(s.role, q) && u < SPACE
      ensures Leaf(r.tables, q, u) == if q == root && u == a then NONE else Leaf(s.tables, q, u)
    {
      PutLeaf(s, root, a, t, NONE, q, u);
    }
    ClearedInv(s, r, root, a, a + 1, false);
  }

  /** Whether the pages in a range may be unmapped that way: user pages are freed, others are not. */
  ghost predicate MayClear(s: State, root: nat, lo: nat, hi: nat, doFree: bool) {
    forall v: nat {:trigger Leaf(s.tables, root, v)} :: lo <= v < hi && Leaf(s.tables, root, v).v ==>
      (doFree <==> Leaf(s.tables, root, v).ppn in s.role && s.role[Leaf(s.tables, root, v).ppn].User?)
  }

  lemma ClearedHome(s: State, r: State, root: nat, lo: nat, hi: nat, doFree: bool, q: nat)
    requires UserOk(s) && MayClear(s, root, lo, hi, doFree) && Cleared(s, r, root, lo, hi, doFree)
    requires IsRoot(s.role, root) && q in r.role && r.role[q].User?
    ensures HomeOk(r, q)
  {
    assert HomeOk(s, q);
  }

  lemma ClearedTarget(s: State, r: State, root: nat, lo: nat, hi: nat, doFree: bool, q: nat, u: nat)
    requires UserOk(s) && Cleared(s, r, root, lo, hi, doFree) && IsRoot(r.role, q) && u < SPACE
    ensures TargetOk(r.role, Leaf(r.tables, q, u), q, u)
  {
    assert IsRoot(s.role, q);
    assert TargetOk(s.role, Leaf(s.tables, q, u), q, u);
  }

  /** Unmapping that way leaves user pages mapped exactly once. */
  lemma ClearedInv(s: State, r: State, root: nat, lo: nat, hi: nat, doFree: bool)
    requires Inv(s) && Base(r) && IsRoot(s.role, root) && hi <= SPACE
    requires MayClear(s, root, lo, hi, doFree) && Cleared(s, r, root, lo, hi, doFree)
    ensures Inv(r)
  {
    forall q | q in r.role && r.role[q].User? ensures HomeOk(r, q) {
      ClearedHome(s, r, root, lo, hi, doFree, q);
    }
    forall q, u: nat | IsRoot(r.role, q) && u < SPACE ensures TargetOk(r.role, Leaf(r.tables, q, u), q, u) {
      ClearedTarget(s, r, root, lo, hi, doFree, q, u);
    }
  }

  lemma ClearedTwice(s: State, s1: State, s2: State, root: nat, lo: nat, a: nat, hi: nat, doFree: bool)
    requires Cleared(s, s1, root, lo, a, doFree) && Cleared(s1, s2, root, a, hi, doFree) && lo <= a <= hi
    ensures Cleared(s, s2, root, lo, hi, doFree)
  {
    forall r, v: nat | IsRoot(s.role, r) && v < SPACE
      ensures Leaf(s2.tables, r, v) == if r == root && lo <= v < hi then NONE else Leaf(s.tables, r, v)
    {
      assert IsRoot(s1.role, r);
    }
  }

  lemma MayClearRest(s: State, s1: State, root: nat, lo: nat, a: nat, hi: nat, doFree: bool)
    requires Inv(s) && MayClear(s, root, lo, hi, doFree) && Cleared(s, s1, root, lo, a, doFree)
    requires IsRoot(s.role, root) && lo <= a <= hi <= SPACE
    ensures MayClear(s1, root, a, hi, doFree)
  {
    forall v: nat | a <= v < hi && Leaf(s1.tables, root, v).v
      ensures doFree <==> Leaf(s1.tables, root, v).ppn in s1.role && s1.role[Leaf(s1.tables, root, v).ppn].User?
    {
      assert TargetOk(s.role, Leaf(s.tables, root, v), root, v);
    }
  }

  /**
   Root maps nothing in the range any more; the free list has got, if pages are to be freed, exactly the
   pages it mapped there, and otherwise nothing.
   */
  ghost predicate RangeFreed(s: State, s': State, root: nat, lo: nat, hi: nat, doFree: bool) {
    && (forall v: nat {:trigger Leaf(s'.tables, root, v)} :: lo <= v < hi ==> Leaf(s'.tables, root, v) == NONE)
    && (forall v: nat {:trigger Leaf(s.tables, root, v)} :: doFree && lo <= v < hi && Leaf(s.tables, root, v).v ==>
          Leaf(s.tables, root, v).ppn in s'.free)
    && (forall p :: p in s.free ==> p in s'.free)
    && forall p :: p in s'.free && p !in s.free ==>
         doFree && exists v: nat :: lo <= v < hi && Leaf(s.tables, root, v).v && Leaf(s.tables, root, v).ppn == p
  }

  lemma ClearedFrees(s: State, s': State, root: nat, lo: nat, hi: nat, doFree: bool)
    requires Inv(s) && Base(s') && Cleared(s, s', root, lo, hi, doFree) && MayClear(s, root, lo, hi, doFree)
    requires IsRoot(s.role, root) && hi <= SPACE
    ensures RangeFreed(s, s', root, lo, hi, doFree)
  {
    forall v: nat | doFree && lo <= v < hi && Leaf(s.tables, root, v).v ensures Leaf(s.tables, root, v).ppn in s'.free {
      assert TargetOk(s.role, Leaf(s.tables, root, v), root, v);
    }
    forall p | p in s'.free && p !in s.free
      ensures doFree && exists v: nat :: lo <= v < hi && Leaf(s.tables, root, v).v && Leaf(s.tables, root, v).ppn == p
    {
      assert s.role[p].User? && HomeOk(s, p);
    }
  }
}
