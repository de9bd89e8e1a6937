/** Freeing a whole page table: which pages lie under a table, and what is left when they are gone. */
module VmFree {
  import opened Counting
  import opened PageTable
  import opened VmState

  /** The index prefix k levels up. */
  function Above(prefix: nat, k: nat): (p: nat)
  {
    if k == 0 then prefix else Above(prefix / 512, k - 1)
  }

  lemma {:induction false} AboveStep(prefix: nat, k: nat)
    requires k > 0
    ensures Above(prefix, k) == Above(prefix, k - 1) / 512
  {
    if k > 1 { AboveStep(prefix / 512, k - 1); }
  }

  /** Table x is t or lies below it. */
  predicate Under(role: Roles, x: nat, t: Role) {
    && x in role && role[x].Node? && t.Node? && role[x].root == t.root && role[x].level <= t.level
    && Above(role[x].prefix, t.level - role[x].level) == t.prefix
  }

  ghost function Sub(role: Roles, t: Role): (f: set<nat>) {
    set x | x in role && Under(role, x, t)
  }

  /** Table x lies below t, by way of an entry before i. */
  predicate Through(role: Roles, x: nat, t: Role, i: nat) {
    Under(role, x, t) && role[x].level < t.level && Above(role[x].prefix, t.level - role[x].level - 1) % 512 < i
  }

  ghost function Part(role: Roles, t: Role, i: nat): (f: set<nat>) {
    set x | x in role && Through(role, x, t, i)
  }

  /** The tables through entry i are those under the child there. */
  lemma PartNext(role: Roles, t: Role, i: nat)
    requires t.Node? && t.level > 0 && i < 512
    ensures Part(role, t, i + 1) == Part(role, t, i) + Sub(role, Node(t.root, t.level - 1, t.prefix * 512 + i))
  {
    var c := Node(t.root, t.level - 1, t.prefix * 512 + i);
    forall x | x in role ensures Through(role, x, t, i + 1) <==> Through(role, x, t, i) || Under(role, x, c) {
      if role[x].Node? && role[x].level < t.level {
        AboveStep(role[x].prefix, t.level - role[x].level);
      }
    }
  }

  /** With all entries done, only t itself is left. */
  lemma PartAll(s: State, t: nat)
    requires Base(s) && t in s.tables
    ensures Sub(s.role, s.role[t]) == Part(s.role, s.role[t], 512) + {t}
    ensures t !in Part(s.role, s.role[t], 512)
  {
    var at := s.role[t];
    forall x | x in s.role && Under(s.role, x, at) && s.role[x].level == at.level ensures x == t {
      assert Placed(s.tables, s.role, x) && Placed(s.tables, s.role, t);
    }
  }

  /** A table below t is reached through a valid entry of t. */
  lemma {:induction false} Reached(s: State, t: nat, x: nat)
    requires Base(s) && t in s.tables && x in s.tables && Under(s.role, x, s.role[t]) && s.role[x].level < s.role[t].level
    ensures s.tables[t][Above(s.role[x].prefix, s.role[t].level - s.role[x].level - 1) % 512].v
    decreases s.role[t].level - s.role[x].level
  {
    var at, ax := s.role[t], s.role[x];
    assert Placed(s.tables, s.role, x) && Placed(s.tables, s.role, t);
    var y := TableAt(s.tables, ax.root, ax.level + 1, ax.prefix / 512);
    assert y in s.tables;
    TableAtFound(s.tables, s.role, ax.root, ax.level + 1, ax.prefix / 512);
    if ax.level + 1 < at.level {
      Reached(s, t, y);
    } else {
      assert Above(ax.prefix, 1) == Above(ax.prefix / 512, 0);
      assert y == t && Child(s.tables[t], ax.prefix % 512) == x;
    }
  }

  lemma NoneThrough(s: State, t: nat, i: nat)
    requires Base(s) && t in s.tables && i < 512 && !s.tables[t][i].v && s.role[t].level > 0
    ensures Sub(s.role, Node(s.role[t].root, s.role[t].level - 1, s.role[t].prefix * 512 + i)) == {}
  {
    var c := Node(s.role[t].root, s.role[t].level - 1, s.role[t].prefix * 512 + i);
    forall x | x in s.role ensures !Under(s.role, x, c) {
      if Under(s.role, x, c) {
        AboveStep(s.role[x].prefix, s.role[t].level - s.role[x].level);
        Reached(s, t, x);
        assert false;
      }
    }
  }

  // ---- What is left ----

  ghost predicate FreeOk(free: seq<nat>, role: Roles) {
    && Distinct(free) && (forall p :: p in free ==> p in role && role[p].Free?)
    && (forall p :: p in role && role[p].Free? ==> p in free)
  }

  /** The tables in f are free pages now; t's own entries may have changed. */
  ghost predicate Gone(s: State, s': State, f: set<nat>, t: nat) {
    && s'.role.Keys == s.role.Keys && s'.pages == s.pages
    && (forall p {:trigger s'.role[p]} {:trigger s.role[p]} :: p in s.role ==> s'.role[p] == if p in f then Free else s.role[p])
    && (forall x {:trigger x in s'.tables} {:trigger x in s.tables} :: x in s'.tables <==> x in s.tables && x !in f)
    && (forall x {:trigger s'.tables[x]} {:trigger s.tables[x]} :: x in s'.tables && x != t ==> s'.tables[x] == s.tables[x])
  }

  lemma GoneTwice(s: State, s1: State, s2: State, f: set<nat>, g: set<nat>, t: nat)
    requires Gone(s, s1, f, t) && Gone(s1, s2, g, t)
    ensures Gone(s, s2, f + g, t)
  {
  }

  lemma GoneExcept(s: State, s': State, f: set<nat>, c: nat, t: nat)
    requires Gone(s, s', f, c) && c in f
    ensures Gone(s, s', f, t)
  {
  }

  lemma GoneLast(s: State, s1: State, s2: State, f: set<nat>, t: nat)
    requires Gone(s, s1, f, t) && t in s1.tables && t in s.role
    requires s2 == State(s1.tables - {t}, s1.pages, [t] + s1.free, s1.role[t := Free])
    ensures Gone(s, s2, f + {t}, t)
  {
  }

  lemma PushOk(free: seq<nat>, role: Roles, t: nat)
    requires FreeOk(free, role) && t in role && !role[t].Free?
    ensures FreeOk([t] + free, role[t := Free])
  {
    forall p | p in role[t := Free] && role[t := Free][p].Free? ensures p in [t] + free {
      assert p == t || p in free;
    }
    forall p | p in [t] + free ensures p in role[t := Free] && role[t := Free][p].Free? {
      assert p == t || p in free;
    }
  }

  lemma PartNone(role: Roles, t: Role, i: nat)
    requires t.Node? && (t.level == 0 || i == 0)
    ensures Part(role, t, i) == {}
  {
  }

  /** The tables under t are still as they were in s0. */
  ghost predicate Intact(s0: State, s: State, t: Role) {
    forall x {:trigger Under(s0.role, x, t)} :: Under(s0.role, x, t) ==>
      x in s.tables && x in s0.tables && s.tables[x] == s0.tables[x] && x in s.role && s.role[x] == s0.role[x]
  }

  /** No page is mapped through the tables under t. */
  ghost predicate NoLeaves(s0: State, t: Role) {
    forall x, ix: nat {:trigger Under(s0.role, x, t), s0.tables[x][ix]} ::
      Under(s0.role, x, t) && x in s0.tables && s0.role[x].level == 0 && ix < 512 ==> !s0.tables[x][ix].v
  }

  lemma BelowChild(role: Roles, t: Role, i: nat, x: nat)
    requires t.Node? && t.level > 0 && i < 512
    requires Under(role, x, Node(t.root, t.level - 1, t.prefix * 512 + i))
    ensures Under(role, x, t) && role[x].level < t.level
    ensures Above(role[x].prefix, t.level - role[x].level - 1) % 512 == i
  {
    AboveStep(role[x].prefix, t.level - role[x].level);
  }

  /** The child at entry i is intact while only tables through earlier entries are gone. */
  lemma ChildIntact(s0: State, s: State, s1: State, t: nat, i: nat)
    requires Base(s0) && t in s0.tables && s0.role[t].level > 0 && i < 512
    requires Intact(s0, s, s0.role[t]) && Gone(s, s1, Part(s0.role, s0.role[t], i), t)
    ensures Intact(s0, s1, Node(s0.role[t].root, s0.role[t].level - 1, s0.role[t].prefix * 512 + i))
  {
    var c := Node(s0.role[t].root, s0.role[t].level - 1, s0.role[t].prefix * 512 + i);
    forall x | Under(s0.role, x, c)
      ensures x in s1.tables && x in s0.tables && s1.tables[x] == s0.tables[x] && x in s1.role && s1.role[x] == s0.role[x]
    {
      BelowChild(s0.role, s0.role[t], i, x);
      assert x in s.tables && x !in Part(s0.role, s0.role[t], i);
      assert x in s1.tables;
    }
  }

  lemma ChildNoLeaves(s0: State, t: Role, i: nat)
    requires t.Node? && t.level > 0 && i < 512 && NoLeaves(s0, t)
    ensures NoLeaves(s0, Node(t.root, t.level - 1, t.prefix * 512 + i))
  {
    forall x, ix: nat | Under(s0.role, x, Node(t.root, t.level - 1, t.prefix * 512 + i)) && x in s0.tables
                        && s0.role[x].level == 0 && ix < 512
      ensures !s0.tables[x][ix].v
    {
      BelowChild(s0.role, t, i, x);
      assert Under(s0.role, x, t);
    }
  }

  // ---- A whole root gone ----

  /** Every table of a root lies under it. */
  lemma AllUnder(s: State, root: nat, x: nat)
    requires Base(s) && IsRoot(s.role, root) && x in s.tables
    ensures Under(s.role, x, s.role[root]) <==> s.role[x].root == root
  {
    assert Placed(s.tables, s.role, x);
    var ax := s.role[x];
    assert Above(ax.prefix, 0) == ax.prefix && Above(ax.prefix, 1) == ax.prefix / 512;
    assert Above(ax.prefix, 2) == Above(ax.prefix / 512, 1) == ax.prefix / 512 / 512;
    assert ax.level == 0 ==> ax.prefix / 512 / 512 == 0;
  }

  lemma {:induction false} GoneAt(s: State, s': State, root: nat, r: nat, level: nat, prefix: nat)
    requires Base(s) && IsRoot(s.role, root) && Gone(s, s', Sub(s.role, s.role[root]), root)
    requires IsRoot(s.role, r) && r != root && level <= 2 && PrefixOk(level, prefix)
    ensures TableAt(s'.tables, r, level, prefix) == TableAt(s.tables, r, level, prefix)
    decreases 2 - level
  {
    if level < 2 {
      GoneAt(s, s', root, r, level + 1, prefix / 512);
      TableAtFound(s.tables, s.role, r, level + 1, prefix / 512);
      var up := TableAt(s.tables, r, level + 1, prefix / 512);
      if up in s.tables {
        AllUnder(s, root, up);
        assert up in s'.tables;
      }
    }
  }

  lemma GoneLeaf(s: State, s': State, root: nat, r: nat, v: nat)
    requires Base(s) && IsRoot(s.role, root) && Gone(s, s', Sub(s.role, s.role[root]), root)
    requires IsRoot(s.role, r) && r != root && v < SPACE
    ensures Leaf(s'.tables, r, v) == Leaf(s.tables, r, v)
  {
    GoneAt(s, s', root, r, 0, v / 512);
    TableAtFound(s.tables, s.role, r, 0, v / 512);
    var t := TableAt(s.tables, r, 0, v / 512);
    if t in s.tables {
      AllUnder(s, root, t);
      assert t in s'.tables;
    }
  }

  lemma GoneTable(s: State, s': State, root: nat, x: nat)
    requires Base(s) && IsRoot(s.role, root) && Gone(s, s', Sub(s.role, s.role[root]), root) && x in s'.tables
    ensures Placed(s'.tables, s'.role, x) && s.role[x].root != root && s'.role[x] == s.role[x]
    ensures forall ix: nat :: ix < 512 ==> EntryFits(s'.tables, s'.role, x, ix)
  {
    assert x in s.tables;
    AllUnder(s, root, x);
    assert Placed(s.tables, s.role, x);
    var ax := s.role[x];
    AllUnder(s, root, ax.root);
    assert ax.root in s'.tables && s'.role[ax.root] == s.role[ax.root];
    GoneAt(s, s', root, ax.root, ax.level, ax.prefix);
    forall ix: nat | ix < 512 ensures EntryFits(s'.tables, s'.role, x, ix) {
      assert EntryFits(s.tables, s.role, x, ix);
      var c := s.tables[x][ix].ppn;
      if s.tables[x][ix].v && ax.level > 0 {
        AllUnder(s, root, c);
        assert c in s'.tables;
      }
    }
  }

  lemma GoneTables(s: State, s': State, root: nat)
    requires Base(s) && IsRoot(s.role, root) && Gone(s, s', Sub(s.role, s.role[root]), root)
    ensures TablesOk(s'.tables, s'.role)
  {
    forall x | x in s'.tables ensures Placed(s'.tables, s'.role, x) && s'.role[x] == s.role[x] {
      GoneTable(s, s', root, x);
    }
    forall x, ix: nat | x in s'.tables && ix < 512 ensures EntryFits(s'.tables, s'.role, x, ix) {
      GoneTable(s, s', root, x);
    }
  }

  /** With a root that maps nothing gone, the rest of memory is as good as before. */
  lemma GoneInv(s: State, s': State, root: nat)
    requires Inv(s) && IsRoot(s.role, root) && Gone(s, s', Sub(s.role, s.role[root]), root) && FreeOk(s'.free, s'.role)
    requires forall v: nat :: v < SPACE ==> !Leaf(s.tables, root, v).v
    ensures Inv(s')
  {
    GoneTables(s, s', root);
    assert Base(s');
    forall q | q in s'.role && s'.role[q].User? ensures HomeOk(s', q) {
      GoneHome(s, s', root, q);
    }
    forall r, v: nat | IsRoot(s'.role, r) && v < SPACE ensures TargetOk(s'.role, Leaf(s'.tables, r, v), r, v) {
      GoneTarget(s, s', root, r, v);
    }
  }

  lemma GoneHome(s: State, s': State, root: nat, q: nat)
    requires Inv(s) && IsRoot(s.role, root) && Gone(s, s', Sub(s.role, s.role[root]), root)
    requires forall v: nat :: v < SPACE ==> !Leaf(s.tables, root, v).v
    requires q in s'.role && s'.role[q].User?
    ensures HomeOk(s', q)
  {
    assert s'.role[q] == s.role[q] && HomeOk(s, q);
    var r := s.role[q].root;
    AllUnder(s, root, r);
    GoneLeaf(s, s', root, r, s.role[q].vpn);
  }

  lemma GoneTarget(s: State, s': State, root: nat, r: nat, v: nat)
    requires Inv(s) && IsRoot(s.role, root) && Gone(s, s', Sub(s.role, s.role[root]), root)
    requires IsRoot(s'.role, r) && v < SPACE
    ensures TargetOk(s'.role, Leaf(s'.tables, r, v), r, v)
  {
    assert IsRoot(s.role, r);
    AllUnder(s, root, r);
    assert root in Sub(s.role, s.role[root]);
    GoneLeaf(s, s', root, r, v);
    var e := Leaf(s.tables, r, v);
    assert TargetOk(s.role, e, r, v);
    if e.v && e.ppn in s.role {
      assert e.ppn !in Sub(s.role, s.role[root]);
    }
  }

  /** A table is not under its own children. */
  lemma NotUnder(role: Roles, t: nat, c: Role)
    requires t in role && role[t].Node? && c.Node? && c.level < role[t].level
    ensures t !in Sub(role, c)
  {
  }

  /** A root that maps nothing has no leaf in any table under it. */
  lemma RootEmpty(s: State, root: nat)
    requires Base(s) && IsRoot(s.role, root) && forall v: nat :: v < SPACE ==> !Leaf(s.tables, root, v).v
    ensures Intact(s, s, s.role[root]) && NoLeaves(s, s.role[root]) && FreeOk(s.free, s.role) && root in s.tables
  {
    forall x, ix: nat | Under(s.role, x, s.role[root]) && x in s.tables && s.role[x].level == 0 && ix < 512
      ensures !s.tables[x][ix].v
    {
      assert Placed(s.tables, s.role, x);
      var v := s.role[x].prefix * 512 + ix;
      assert v / 512 == s.role[x].prefix && v % 512 == ix && v < SPACE;
      assert !Leaf(s.tables, root, v).v;
    }
  }

  /** What a page is for when root is gone: its tables and user pages are free. */
  function FreedRole(x: Role, root: nat): (r: Role) {
    if (x.Node? || x.User?) && x.root == root then Free else x
  }

  /** What became of every page when a root's mappings and then its tables are gone. */
  lemma FreeRoles(s: State, m: State, s': State, root: nat, hi: nat)
    requires Inv(s) && Base(m) && IsRoot(s.role, root) && hi <= SPACE && Cleared(s, m, root, 0, hi, true)
    requires forall v: nat :: hi <= v < SPACE ==> !Leaf(s.tables, root, v).v
    requires IsRoot(m.role, root) && Gone(m, s', Sub(m.role, m.role[root]), root)
    ensures s'.role.Keys == s.role.Keys
    ensures forall p :: p in s.role ==> s'.role[p] == FreedRole(s.role[p], root)
    ensures forall r, v: nat :: r != root && IsRoot(s.role, r) && v < SPACE ==> Leaf(s'.tables, r, v) == Leaf(s.tables, r, v)
  {
    forall p | p in s.role ensures s'.role[p] == FreedRole(s.role[p], root) {
      if s.role[p].User? { assert HomeOk(s, p); }
      if m.role[p].Node? { AllUnder(m, root, p); }
    }
    forall r, v: nat | r != root && IsRoot(s.role, r) && v < SPACE ensures Leaf(s'.tables, r, v) == Leaf(s.tables, r, v) {
      assert IsRoot(m.role, r);
      GoneLeaf(m, s', root, r, v);
    }
  }

  lemma StillThere(s: State, s': State, f: set<nat>, c: nat, t: nat)
    requires Gone(s, s', f, c) && t in s.tables && t !in f && t != c
    ensures t in s'.tables && s'.tables[t] == s.tables[t]
  {
  }

  /** What an entry of a table under an empty root can be: a child's, or nothing and then nothing lies through it. */
  lemma EntryCase(s0: State, t: nat, i: nat, now: Table)
    requires Base(s0) && t in s0.tables && i < 512 && NoLeaves(s0, s0.role[t]) && now[i..] == s0.tables[t][i..]
    ensures var pte, at := now[i], s0.role[t];
      if pte.v then
        && !IsLeaf(pte.perm) && at.level > 0 && pte.ppn in s0.tables
        && s0.role[pte.ppn] == Node(at.root, at.level - 1, at.prefix * 512 + i)
      else Part(s0.role, at, i + 1) == Part(s0.role, at, i)
    ensures now[i + 1..] == s0.tables[t][i + 1..]
  {
    var pte, at := now[i], s0.role[t];
    assert pte == now[i..][0] == s0.tables[t][i];
    assert EntryFits(s0.tables, s0.role, t, i) && Under(s0.role, t, at);
    if at.level == 0 {
      PartNone(s0.role, at, i);
      PartNone(s0.role, at, i + 1);
    } else if !pte.v {
      PartNext(s0.role, at, i);
      NoneThrough(s0, t, i);
    }
    assert now[i + 1..] == now[i..][1..];
  }

  /** Entry i of t is done once the child's tables are gone and the entry is cleared. */
  lemma ChildGone(s0: State, s: State, m: State, m1: State, t: nat, i: nat, child: nat)
    requires Base(s0) && t in s0.tables && i < 512 && s0.role[t].level > 0 && child in s0.tables && t in m.tables
    requires s0.role[child] == Node(s0.role[t].root, s0.role[t].level - 1, s0.role[t].prefix * 512 + i)
    requires Gone(s, m, Part(s0.role, s0.role[t], i), t) && Gone(m, m1, Sub(s0.role, s0.role[child]), child)
    ensures t in m1.tables && m1.tables[t] == m.tables[t]
    ensures Gone(s, m1.(tables := m1.tables[t := m1.tables[t][i := NONE]]), Part(s0.role, s0.role[t], i + 1), t)
  {
    var c := s0.role[child];
    assert Under(s0.role, child, c);
    NotUnder(s0.role, t, c);
    StillThere(m, m1, Sub(s0.role, c), child, t);
    GoneExcept(m, m1, Sub(s0.role, c), child, t);
    GoneTwice(s, m, m1, Part(s0.role, s0.role[t], i), Sub(s0.role, c), t);
    PartNext(s0.role, s0.role[t], i);
  }
}
