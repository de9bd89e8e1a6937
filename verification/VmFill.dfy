/**
 Adding user pages to a page table, page by page, and taking them back: what
 uvmalloc, uvmcopy and vmfault do, as changes of the whole memory.
 */
module VmFill {
  import opened PageTable
  import opened VmState

  // ---- One page ----

  /** Page p, free before, is now root's user page v with the given contents; otherwise only table pages were added. */
  ghost predicate Added(s: State, s': State, root: nat, v: nat, p: nat, perm: Perm, page: Page) {
    && s'.role.Keys == s.role.Keys && p in s.role && s.role[p].Free? && s'.role[p] == User(root, v)
    && (forall q {:trigger s'.role[q]} {:trigger s.role[q]} :: q in s.role && q != p ==>
          s'.role[q] == s.role[q] || (s.role[q].Free? && s'.role[q].Node? && s'.role[q].level < 2))
    && PagesKept(s, s') && p in s'.pages && s'.pages[p] == page
    && forall r, u: nat {:trigger Leaf(s'.tables, r, u)} {:trigger Leaf(s.tables, r, u)} :: IsRoot(s.role, r) && u < SPACE ==>
         Leaf(s'.tables, r, u) == if r == root && u == v then Pte(p, true, perm) else Leaf(s.tables, r, u)
  }

  /** The first free page, taken and given its contents. */
  function Ready(s: State, page: Page): (r: State)
    requires s.free != [] && s.free[0] in s.role
  {
    var m := Taken(s);
    m.(pages := m.pages[s.free[0] := page])
  }

  lemma ReadyOk(s: State, page: Page)
    requires Inv(s) && s.free != []
    ensures var p := s.free[0];
      && p in s.role && s.role[p].Free? && p != 0
      && Inv(Ready(s, page)) && Unmapped(Ready(s, page), p) && Ready(s, page).role[p].Kept?
      && forall r :: IsRoot(Ready(s, page).role, r) <==> IsRoot(s.role, r)
  {
    var p, m, r := s.free[0], Taken(s), Ready(s, page);
    assert p in s.free;
    TakenBase(s);
    TakenUser(s);
    forall q, v: nat | IsRoot(r.role, q) && v < SPACE && Leaf(r.tables, q, v).v ensures Leaf(r.tables, q, v).ppn != p {
      assert IsRoot(s.role, q);
      assert TargetOk(s.role, Leaf(s.tables, q, v), q, v);
    }
    assert Base(r);
    forall q | q in r.role && r.role[q].User? ensures HomeOk(r, q) {
      assert HomeOk(m, q);
    }
    forall q, v: nat | IsRoot(r.role, q) && v < SPACE ensures TargetOk(r.role, Leaf(r.tables, q, v), q, v) {
      assert TargetOk(m.role, Leaf(m.tables, q, v), q, v);
    }
  }

  /** What was taken is all that changed on the way to s2. */
  lemma ReadyFrame(s: State, s2: State, root: nat, v: nat, n: nat, perm: Perm, page: Page)
    requires s.free != [] && s.free[0] in s.role && s.role[s.free[0]].Free?
    requires Mapped(Ready(s, page), s2, root, v, n, s.free[0], perm)
    ensures PagesKept(s, s2) && s2.role.Keys == s.role.Keys && s2.role[s.free[0]].Kept?
    ensures s.free[0] in s2.pages && s2.pages[s.free[0]] == page
    ensures forall q {:trigger s2.role[q]} {:trigger s.role[q]} :: q in s.role && q != s.free[0] ==>
      s2.role[q] == s.role[q] || (s.role[q].Free? && s2.role[q].Node? && s2.role[q].level < 2)
  {
    var p, m := s.free[0], Ready(s, page);
    assert m.role[p] == Kept && m.pages[p] == page;
    forall q | q in s.role && (s.role[q].User? || s.role[q].Kept?) && q in s.pages ensures q in s2.pages && s2.pages[q] == s.pages[q] {
      assert m.role[q] == s.role[q] && m.pages[q] == s.pages[q];
    }
    forall q | q in s.role && q != p
      ensures s2.role[q] == s.role[q] || (s.role[q].Free? && s2.role[q].Node? && s2.role[q].level < 2)
    {
      assert m.role[q] == s.role[q];
    }
  }

  lemma ReadyLeaf(s: State, s2: State, root: nat, v: nat, n: nat, perm: Perm, page: Page, r: nat, u: nat)
    requires s.free != [] && s.free[0] in s.role && s.role[s.free[0]].Free? && IsRoot(s.role, r) && u < SPACE && n <= 1
    requires Mapped(Ready(s, page), s2, root, v, n, s.free[0], perm)
    ensures Leaf(s2.tables, r, u) == if n == 1 && r == root && u == v then Pte(s.free[0], true, perm) else Leaf(s.tables, r, u)
  {
    assert IsRoot(Ready(s, page).role, r);
  }

  /** Taken, filled and mapped: added. */
  lemma AddedOk(s: State, s2: State, root: nat, v: nat, perm: Perm, page: Page)
    requires Inv(s) && s.free != [] && s.free[0] in s.role && IsRoot(s.role, root) && v < MAXVPN && !Leaf(s.tables, root, v).v
    requires Base(s2) && Mapped(Ready(s, page), s2, root, v, 1, s.free[0], perm)
    ensures Inv(Owned(s2, s.free[0], root, v)) && Added(s, Owned(s2, s.free[0], root, v), root, v, s.free[0], perm, page)
  {
    ReadyOk(s, page);
    assert Inv(Owned(s2, s.free[0], root, v)) by {
      MapUser(Ready(s, page), s2, root, v, s.free[0], perm);
    }
    AddedFacts(s, s2, root, v, perm, page);
  }

  lemma AddedFacts(s: State, s2: State, root: nat, v: nat, perm: Perm, page: Page)
    requires s.free != [] && s.free[0] in s.role && s.role[s.free[0]].Free?
    requires Mapped(Ready(s, page), s2, root, v, 1, s.free[0], perm)
    ensures Added(s, Owned(s2, s.free[0], root, v), root, v, s.free[0], perm, page)
  {
    var p, r := s.free[0], Owned(s2, s.free[0], root, v);
    ReadyFrame(s, s2, root, v, 1, perm, page);
    assert r.role.Keys == s.role.Keys && PagesKept(s, r);
    forall q, u: nat | IsRoot(s.role, q) && u < SPACE
      ensures Leaf(r.tables, q, u) == if q == root && u == v then Pte(p, true, perm) else Leaf(s.tables, q, u)
    {
      ReadyLeaf(s, s2, root, v, 1, perm, page, q, u);
    }
  }

  lemma NotAddedUnmapped(m: State, s2: State, p: nat)
    requires Inv(m) && Base(s2) && Grows(m, s2) && Unmapped(m, p) && p in m.role && m.role[p].Kept?
    ensures p in s2.role && s2.role[p].Kept? && Inv(Returned(s2, p))
  {
    GrowsUser(m, s2);
    assert s2.role[p] == m.role[p];
    forall q, u: nat | IsRoot(s2.role, q) && u < SPACE && Leaf(s2.tables, q, u).v ensures Leaf(s2.tables, q, u).ppn != p {
      RootsSame(m.role, s2.role, q);
    }
    ReturnedBase(s2, p);
    ReturnedUser(s2, p);
  }

  /** Taken, but not mapped for want of a table page, and returned: nothing but table pages were added. */
  lemma NotAdded(s: State, s2: State, root: nat, v: nat, perm: Perm, page: Page)
    requires Inv(s) && s.free != [] && s.free[0] in s.role && IsRoot(s.role, root)
    requires Base(s2) && Mapped(Ready(s, page), s2, root, v, 0, s.free[0], perm)
    ensures s.free[0] in s2.role && s2.role[s.free[0]].Kept?
    ensures Inv(Returned(s2, s.free[0])) && Grows(s, Returned(s2, s.free[0]))
  {
    ReadyOk(s, page);
    NotAddedUnmapped(Ready(s, page), s2, s.free[0]);
    NotAddedGrows(s, s2, root, v, perm, page);
  }

  lemma NotAddedGrows(s: State, s2: State, root: nat, v: nat, perm: Perm, page: Page)
    requires s.free != [] && s.free[0] in s.role && s.role[s.free[0]].Free?
    requires Mapped(Ready(s, page), s2, root, v, 0, s.free[0], perm)
    ensures Grows(s, Returned(s2, s.free[0]))
  {
    var r := Returned(s2, s.free[0]);
    ReadyFrame(s, s2, root, v, 0, perm, page);
    assert RoleGrows(s.role, r.role) && PagesKept(s, r);
    forall q, u: nat | IsRoot(s.role, q) && u < SPACE ensures Leaf(r.tables, q, u) == Leaf(s.tables, q, u) {
      ReadyLeaf(s, s2, root, v, 0, perm, page, q, u);
    }
  }

  // ---- A range of pages ----

  /** What a page of the range is to hold. */
  datatype Want = Nothing | Wanted(perm: Perm, page: Page)

  ghost predicate SlotOk(s: State, s': State, root: nat, v: nat, w: Want) {
    var e := Leaf(s'.tables, root, v);
    match w
    case Nothing => e == NONE
    case Wanted(perm, page) =>
      && e == Pte(e.ppn, true, perm) && e.ppn in s.role && s.role[e.ppn].Free?
      && e.ppn in s'.role && s'.role[e.ppn] == User(root, v) && e.ppn in s'.pages && s'.pages[e.ppn] == page
  }

  ghost predicate FillRole(x: Role, x': Role, root: nat, lo: nat, a: nat) {
    x' == x || (x.Free? && x'.Node? && x'.level < 2) || (x.Free? && x'.User? && x'.root == root && lo <= x'.vpn < a)
  }

  /** Pages lo .. a of root hold fresh pages as wanted; otherwise only table pages were added. */
  ghost predicate FilledTo(s: State, s': State, root: nat, lo: nat, a: nat, want: nat -> Want) {
    && s'.role.Keys == s.role.Keys
    && (forall p {:trigger s'.role[p]} {:trigger s.role[p]} :: p in s.role ==> FillRole(s.role[p], s'.role[p], root, lo, a))
    && PagesKept(s, s')
    && (forall v: nat {:trigger want(v)} :: lo <= v < a ==> SlotOk(s, s', root, v, want(v)))
    && forall r, v: nat {:trigger Leaf(s'.tables, r, v)} {:trigger Leaf(s.tables, r, v)} ::
         IsRoot(s.role, r) && v < SPACE && !(r == root && lo <= v < a) ==> Leaf(s'.tables, r, v) == Leaf(s.tables, r, v)
  }

  lemma FillRoots(s: State, s': State, root: nat, lo: nat, a: nat, want: nat -> Want, r: nat)
    requires FilledTo(s, s', root, lo, a, want)
    ensures IsRoot(s'.role, r) <==> IsRoot(s.role, r)
  {
  }

  /** A page with nothing wanted is skipped. */
  lemma FillSkip(s: State, s': State, root: nat, lo: nat, a: nat, want: nat -> Want)
    requires FilledTo(s, s', root, lo, a, want) && IsRoot(s.role, root) && lo <= a < SPACE
    requires want(a) == Nothing && Leaf(s.tables, root, a) == NONE
    ensures FilledTo(s, s', root, lo, a + 1, want)
  {
    forall p | p in s.role ensures FillRole(s.role[p], s'.role[p], root, lo, a + 1) {
      assert FillRole(s.role[p], s'.role[p], root, lo, a);
    }
    forall v: nat | lo <= v < a + 1 ensures SlotOk(s, s', root, v, want(v)) {
    }
  }

  lemma FillPages(s: State, s1: State, s2: State, root: nat, lo: nat, a: nat, want: nat -> Want)
    requires FilledTo(s, s1, root, lo, a, want) && PagesKept(s1, s2)
    ensures PagesKept(s, s2)
  {
    forall q | q in s.role && (s.role[q].User? || s.role[q].Kept?) && q in s.pages ensures q in s2.pages && s2.pages[q] == s.pages[q] {
      assert FillRole(s.role[q], s1.role[q], root, lo, a);
    }
  }

  lemma FillSlot(s: State, s1: State, s2: State, root: nat, a: nat, p: nat, perm: Perm, page: Page, v: nat, w: Want)
    requires SlotOk(s, s1, root, v, w) && Added(s1, s2, root, a, p, perm, page) && v != a && IsRoot(s1.role, root) && v < SPACE
    ensures SlotOk(s, s2, root, v, w)
  {
  }

  /** One page more. */
  lemma FillNext(s: State, s1: State, s2: State, root: nat, lo: nat, a: nat, want: nat -> Want, p: nat)
    requires FilledTo(s, s1, root, lo, a, want) && IsRoot(s.role, root) && lo <= a < SPACE
    requires want(a).Wanted? && Added(s1, s2, root, a, p, want(a).perm, want(a).page)
    ensures FilledTo(s, s2, root, lo, a + 1, want)
  {
    FillRoots(s, s1, root, lo, a, want, root);
    forall q | q in s.role ensures FillRole(s.role[q], s2.role[q], root, lo, a + 1) {
      assert FillRole(s.role[q], s1.role[q], root, lo, a);
    }
    FillPages(s, s1, s2, root, lo, a, want);
    forall v: nat | lo <= v < a + 1 ensures SlotOk(s, s2, root, v, want(v)) {
      if v < a {
        FillSlot(s, s1, s2, root, a, p, want(a).perm, want(a).page, v, want(v));
      } else {
        assert FillRole(s.role[p], s1.role[p], root, lo, a);
      }
    }
    forall r, v: nat | IsRoot(s.role, r) && v < SPACE && !(r == root && lo <= v < a + 1)
      ensures Leaf(s2.tables, r, v) == Leaf(s.tables, r, v)
    {
      FillRoots(s, s1, root, lo, a, want, r);
    }
  }

  /** The pages added can be taken back: all that is mapped in the range is user pages. */
  lemma FillMayClear(s: State, s1: State, s2: State, root: nat, lo: nat, a: nat, want: nat -> Want)
    requires FilledTo(s, s1, root, lo, a, want) && Grows(s1, s2) && IsRoot(s.role, root) && a <= SPACE
    ensures MayClear(s2, root, lo, a, true)
  {
    FillRoots(s, s1, root, lo, a, want, root);
    forall v: nat | lo <= v < a && Leaf(s2.tables, root, v).v
      ensures Leaf(s2.tables, root, v).ppn in s2.role && s2.role[Leaf(s2.tables, root, v).ppn].User?
    {
      assert SlotOk(s, s1, root, v, want(v));
    }
  }

  /** Taking them back leaves the memory as before, but for table pages. */
  lemma FillUndone(s: State, s1: State, s2: State, s3: State, root: nat, lo: nat, a: nat, want: nat -> Want)
    requires Inv(s) && FilledTo(s, s1, root, lo, a, want) && Grows(s1, s2) && IsRoot(s.role, root) && lo <= a <= SPACE
    requires forall v: nat :: lo <= v < a ==> !Leaf(s.tables, root, v).v
    requires Cleared(s2, s3, root, lo, a, true)
    ensures Grows(s, s3)
  {
    forall q | q in s.role ensures s3.role[q] == s.role[q] || (s.role[q].Free? && s3.role[q].Node? && s3.role[q].level < 2) {
      assert FillRole(s.role[q], s1.role[q], root, lo, a);
      if s.role[q].User? { assert HomeOk(s, q); }
    }
    assert RoleGrows(s.role, s3.role);
    forall q | q in s.role && (s.role[q].User? || s.role[q].Kept?) && q in s.pages ensures q in s3.pages && s3.pages[q] == s.pages[q] {
      assert FillRole(s.role[q], s1.role[q], root, lo, a);
      assert s3.role[q] == s.role[q] == s2.role[q];
    }
    forall r, v: nat | IsRoot(s.role, r) && v < SPACE ensures Leaf(s3.tables, r, v) == Leaf(s.tables, r, v) {
      FillRoots(s, s1, root, lo, a, want, r);
      RootsSame(s1.role, s2.role, r);
    }
  }

  // ---- What uvmalloc and uvmcopy want ----

  ghost function ZeroWant(perm: Perm): (w: nat -> Want) {
    (v: nat) => Wanted(perm, Filled(0))
  }

  /** A copy of what root src maps in s. */
  ghost function CopyWant(s: State, src: nat): (w: nat -> Want) {
    (v: nat) => CopyOf(s, Leaf(s.tables, src, v))
  }

  ghost function CopyOf(s: State, e: Pte): (w: Want) {
    if e.v && e.ppn in s.pages then Wanted(e.perm, s.pages[e.ppn]) else Nothing
  }

  lemma FillStart(s: State, root: nat, lo: nat, want: nat -> Want)
    ensures FilledTo(s, s, root, lo, lo, want)
  {
  }

  /** A mapped page's entry has leaf permissions. */
  lemma LeafPerm(s: State, root: nat, v: nat)
    requires Base(s) && IsRoot(s.role, root) && v < SPACE && Leaf(s.tables, root, v).v
    ensures IsLeaf(Leaf(s.tables, root, v).perm)
  {
    HolderFound(s, root, v);
    var t := TableAt(s.tables, root, 0, v / 512);
    assert EntryFits(s.tables, s.role, t, v % 512);
  }

  /** While another root fills up, what src maps and holds stays put. */
  lemma SourceStays(s: State, s1: State, src: nat, root: nat, lo: nat, a: nat, want: nat -> Want, v: nat)
    requires Inv(s) && FilledTo(s, s1, root, lo, a, want) && IsRoot(s.role, src) && src != root && v < SPACE
    requires var e := Leaf(s.tables, src, v); e.v ==> e.ppn in s.role && s.role[e.ppn].User?
    ensures Leaf(s1.tables, src, v) == Leaf(s.tables, src, v)
    ensures CopyOf(s1, Leaf(s1.tables, src, v)) == CopyOf(s, Leaf(s.tables, src, v))
    ensures Leaf(s.tables, src, v).v ==> CopyOf(s, Leaf(s.tables, src, v)).Wanted?
  {
  }

  /**
   The first sz bytes of src are in dst: each page that src maps there has, in dst, the same permissions
   and a page of its own with the same contents; where src maps nothing, neither does dst; and no other
   mapping and no page in use has changed.
   */
  ghost predicate Copied(s: State, s': State, src: nat, dst: nat, sz: nat) {
    && (forall v: nat {:trigger Leaf(s'.tables, dst, v)} :: v * PGSIZE < sz ==>
          var e, c := Leaf(s.tables, src, v), Leaf(s'.tables, dst, v);
          if !e.v then c == NONE
          else && c.v && c.perm == e.perm && c.ppn != e.ppn && c.ppn in s.role && s.role[c.ppn].Free?
               && e.ppn in s.pages && c.ppn in s'.pages && s'.pages[c.ppn] == s.pages[e.ppn])
    && PagesKept(s, s')
    && forall r, v: nat {:trigger Leaf(s'.tables, r, v)} {:trigger Leaf(s.tables, r, v)} ::
         IsRoot(s.role, r) && v < SPACE && !(r == dst && v * PGSIZE < sz) ==> Leaf(s'.tables, r, v) == Leaf(s.tables, r, v)
  }

  /**
   The pages from oldsz, rounded up, to newsz are mapped, each to a fresh page of zeros with the given
   permissions; no other mapping and no page in use has changed.
   */
  ghost predicate Extended(s: State, s': State, root: nat, oldsz: nat, newsz: nat, perm: Perm) {
    && (forall v: nat {:trigger Leaf(s'.tables, root, v)} :: oldsz <= v * PGSIZE < newsz ==>
          var e := Leaf(s'.tables, root, v);
          && e.v && e.perm == perm && e.ppn in s.role && s.role[e.ppn].Free? && e.ppn in s'.pages
          && forall k: nat :: k < PGSIZE ==> s'.pages[e.ppn][k] == 0)
    && PagesKept(s, s')
    && forall r, v: nat {:trigger Leaf(s'.tables, r, v)} {:trigger Leaf(s.tables, r, v)} ::
         IsRoot(s.role, r) && v < SPACE && !(r == root && oldsz <= v * PGSIZE < newsz) ==> Leaf(s'.tables, r, v) == Leaf(s.tables, r, v)
  }

  lemma FilledIsCopied(s: State, s': State, src: nat, dst: nat, hi: nat, sz: nat)
    requires Inv(s) && FilledTo(s, s', dst, 0, hi, CopyWant(s, src)) && MayClear(s, src, 0, hi, true) && IsRoot(s.role, src)
    requires forall v: nat :: v * PGSIZE < sz <==> v < hi
    ensures Copied(s, s', src, dst, sz)
  {
    var want := CopyWant(s, src);
    forall v: nat | v * PGSIZE < sz
      ensures var e, c := Leaf(s.tables, src, v), Leaf(s'.tables, dst, v);
        if !e.v then c == NONE
        else && c.v && c.perm == e.perm && c.ppn != e.ppn && c.ppn in s.role && s.role[c.ppn].Free?
             && e.ppn in s.pages && c.ppn in s'.pages && s'.pages[c.ppn] == s.pages[e.ppn]
    {
      assert SlotOk(s, s', dst, v, want(v));
    }
  }

  lemma FilledIsExtended(s: State, s': State, root: nat, lo: nat, hi: nat, oldsz: nat, newsz: nat, perm: Perm)
    requires FilledTo(s, s', root, lo, hi, ZeroWant(perm))
    requires forall v: nat :: oldsz <= v * PGSIZE < newsz <==> lo <= v < hi
    ensures Extended(s, s', root, oldsz, newsz, perm)
  {
    var want := ZeroWant(perm);
    forall v: nat | oldsz <= v * PGSIZE < newsz
      ensures var e := Leaf(s'.tables, root, v);
        && e.v && e.perm == perm && e.ppn in s.role && s.role[e.ppn].Free? && e.ppn in s'.pages
        && forall k: nat :: k < PGSIZE ==> s'.pages[e.ppn][k] == 0
    {
      assert SlotOk(s, s', root, v, want(v));
    }
  }

  // ---- A new root ----

  /** The state with the first free page as an empty root table. */
  function WithRoot(s: State): (r: State)
    requires s.free != []
  {
    var n := s.free[0];
    State(s.tables[n := ZeroTable()], s.pages[n := Filled(5)], s.free[1..], s.role[n := Node(n, 2, 0)])
  }

  lemma {:induction false} RootAt(s: State, r: nat, level: nat, prefix: nat)
    requires Base(s) && s.free != [] && level <= 2 && PrefixOk(level, prefix) && (IsRoot(s.role, r) || r == s.free[0])
    ensures TableAt(WithRoot(s).tables, r, level, prefix)
      == if r == s.free[0] then (if level == 2 then r else 0) else TableAt(s.tables, r, level, prefix)
    decreases 2 - level
  {
    var n := s.free[0];
    assert n in s.free;
    if level < 2 {
      RootAt(s, r, level + 1, prefix / 512);
      if r != n {
        TableAtFound(s.tables, s.role, r, level + 1, prefix / 512);
      }
    }
  }

  lemma RootLeaf(s: State, r: nat, v: nat)
    requires Base(s) && s.free != [] && v < SPACE && (IsRoot(s.role, r) || r == s.free[0])
    ensures Leaf(WithRoot(s).tables, r, v) == if r == s.free[0] then NONE else Leaf(s.tables, r, v)
  {
    assert s.free[0] in s.free;
    RootAt(s, r, 0, v / 512);
    if r != s.free[0] {
      TableAtFound(s.tables, s.role, r, 0, v / 512);
    }
  }

  lemma RootBase(s: State)
    requires Base(s) && s.free != []
    ensures Base(WithRoot(s))
  {
    var n, r := s.free[0], WithRoot(s);
    assert n in s.free;
    forall t | t in r.tables ensures Placed(r.tables, r.role, t) {
      if t == n {
        RootAt(s, n, 2, 0);
      } else {
        assert Placed(s.tables, s.role, t);
        RootAt(s, s.role[t].root, s.role[t].level, s.role[t].prefix);
      }
    }
    forall t, ix: nat | t in r.tables && ix < 512 ensures EntryFits(r.tables, r.role, t, ix) {
      if t != n { assert EntryFits(s.tables, s.role, t, ix); }
    }
    forall p | p in r.free ensures p in r.role && r.role[p].Free? {
      assert p in s.free;
    }
    forall p | p in r.role && r.role[p].Free? ensures p in r.free {
      assert p in s.free && p != n;
    }
  }

  lemma RootUser(s: State)
    requires Inv(s) && s.free != []
    ensures UserOk(WithRoot(s))
  {
    var n, r := s.free[0], WithRoot(s);
    assert n in s.free;
    forall p | p in r.role && r.role[p].User? ensures HomeOk(r, p) {
      assert HomeOk(s, p);
      RootLeaf(s, s.role[p].root, s.role[p].vpn);
    }
    forall q, v: nat | IsRoot(r.role, q) && v < SPACE ensures TargetOk(r.role, Leaf(r.tables, q, v), q, v) {
      RootLeaf(s, q, v);
      if q != n { assert TargetOk(s.role, Leaf(s.tables, q, v), q, v); }
    }
  }

  lemma RootOk(s: State)
    requires Inv(s) && s.free != []
    ensures Inv(WithRoot(s)) && s.free[0] in s.role && s.role[s.free[0]].Free? && s.free[0] != 0
    ensures forall v: nat :: v < SPACE ==> Leaf(WithRoot(s).tables, s.free[0], v) == NONE
    ensures forall r, v: nat :: IsRoot(s.role, r) && v < SPACE ==> Leaf(WithRoot(s).tables, r, v) == Leaf(s.tables, r, v)
  {
    assert s.free[0] in s.free;
    RootBase(s);
    RootUser(s);
    forall r, v: nat | (IsRoot(s.role, r) || r == s.free[0]) && v < SPACE
      ensures Leaf(WithRoot(s).tables, r, v) == if r == s.free[0] then NONE else Leaf(s.tables, r, v)
    {
      RootLeaf(s, r, v);
    }
  }
}
