/**
 Sv39 page tables as kernel/vm.c builds them.  A table is 512 entries; an entry
 is a 64-bit number with the page number above ten flag bits.  The module gives
 a three-level table its meaning, one flat map from page number to entry, and
 shows what linking a table page and writing a leaf do to that map.
 */
module PageTable {

  const PGSIZE: nat := 4096
  const ENTRIES: nat := 512
  /** Virtual page numbers that three 9-bit indices can tell apart. */
  const SPACE: nat := 512 * 512 * 512
  /** Pages below MAXVA, one bit less than that. */
  const MAXVPN: nat := SPACE / 2

  // ---- Entries ----

  /** Permissions: readable, writable, executable, accessible to user code. */
  datatype Perm = Perm(r: bool, w: bool, x: bool, u: bool)

  datatype Pte = Pte(ppn: nat, v: bool, perm: Perm)

  const NONE: Pte := Pte(0, false, Perm(false, false, false, false))

  /** An entry with any of R, W, X set maps a page; one without leads to a table. */
  predicate IsLeaf(perm: Perm) { perm.r || perm.w || perm.x }

  const LINK: Perm := Perm(false, false, false, false)

  function Bit(b: bool): (r: nat) { if b then 1 else 0 }

  /** The stored entry: V, R, W, X, U from the lowest bit up, five bits unused, then the page number. */
  function Raw(p: Pte): (r: nat) {
    Bit(p.v) + 2 * (Bit(p.perm.r) + 2 * (Bit(p.perm.w) + 2 * (Bit(p.perm.x) + 2 * (Bit(p.perm.u) + 2 * (32 * p.ppn)))))
  }

  /** What shifting an entry right bit by bit shows: the flags, then the page number. */
  function Parsed(raw: nat): (p: Pte) {
    var r1 := raw / 2;
    var r2 := r1 / 2;
    var r3 := r2 / 2;
    var r4 := r3 / 2;
    Pte(r4 / 2 / 32, raw % 2 == 1, Perm(r1 % 2 == 1, r2 % 2 == 1, r3 % 2 == 1, r4 % 2 == 1))
  }

  lemma Shift(b: bool, rest: nat)
    ensures (Bit(b) + 2 * rest) / 2 == rest && ((Bit(b) + 2 * rest) % 2 == 1 <==> b)
  {
  }

  /** Storing an entry and reading its parts back loses nothing. */
  lemma RawRoundTrip(p: Pte)
    ensures Parsed(Raw(p)) == p
    ensures Raw(p) / 1024 == p.ppn
  {
    var r5 := 32 * p.ppn;
    var r4 := Bit(p.perm.u) + 2 * r5;
    var r3 := Bit(p.perm.x) + 2 * r4;
    var r2 := Bit(p.perm.w) + 2 * r3;
    var r1 := Bit(p.perm.r) + 2 * r2;
    Shift(p.v, r1);
    Shift(p.perm.r, r2);
    Shift(p.perm.w, r3);
    Shift(p.perm.x, r4);
    Shift(p.perm.u, r5);
    assert Raw(p) == 1024 * p.ppn + (Raw(p) - 1024 * p.ppn) && 0 <= Raw(p) - 1024 * p.ppn < 32;
  }

  // ---- Indices ----

  /** PX(level, va): the index used at a level. */
  function Px(level: nat, vpn: nat): (ix: nat)
    requires level <= 2
    ensures ix < ENTRIES
  {
    if level == 2 then vpn / (512 * 512) % 512 else if level == 1 then vpn / 512 % 512 else vpn % 512
  }

  /** What the indices above a level say: which table of that level covers vpn. */
  function Pre(level: nat, vpn: nat): (p: nat)
    requires level <= 2
  {
    if level == 2 then vpn / (512 * 512) / 512 else if level == 1 then vpn / (512 * 512) else vpn / 512
  }

  lemma PreStep(level: nat, vpn: nat)
    requires 0 < level <= 2
    ensures Pre(level - 1, vpn) == Pre(level, vpn) * 512 + Px(level, vpn)
    ensures Pre(level - 1, vpn) / 512 == Pre(level, vpn) && Pre(level - 1, vpn) % 512 == Px(level, vpn)
  {
    assert vpn / 512 / 512 == vpn / (512 * 512);
  }

  /** The three indices determine the page number, and every triple is some page's. */
  lemma IndexBijection(i2: nat, i1: nat, i0: nat, vpn: nat)
    requires i2 < 512 && i1 < 512 && i0 < 512 && vpn < SPACE
    ensures (i2 * 512 + i1) * 512 + i0 < SPACE
    ensures Px(2, vpn) == i2 && Px(1, vpn) == i1 && Px(0, vpn) == i0 <==> vpn == (i2 * 512 + i1) * 512 + i0
  {
    PreStep(1, vpn);
    PreStep(2, vpn);
    var w := (i2 * 512 + i1) * 512 + i0;
    PreStep(1, w);
    assert w / 512 == i2 * 512 + i1;
    assert w / (512 * 512) == i2;
  }

  // ---- Tables ----

  type Table = t: seq<Pte> | |t| == 512 witness seq(512, _ => NONE)
  type Tables = map<nat, Table>

  /** What an allocatable page is used for. */
  datatype Role =
    | Free
    | Node(root: nat, level: nat, prefix: nat)
    | User(root: nat, vpn: nat)
    | Kept

  type Roles = map<nat, Role>

  predicate IsRoot(role: Roles, r: nat) {
    r in role && role[r] == Node(r, 2, 0)
  }

  /** The table an entry leads to, 0 if none. */
  function Child(t: Table, ix: nat): (c: nat)
    requires ix < 512
  {
    if t[ix].v then t[ix].ppn else 0
  }

  /** The table of a level reached from a root by the indices in `prefix`, 0 if none. */
  function TableAt(tables: Tables, root: nat, level: nat, prefix: nat): (t: nat)
    requires level <= 2
    decreases 2 - level
  {
    if level == 2 then root
    else
      var up := TableAt(tables, root, level + 1, prefix / 512);
      if up in tables then Child(tables[up], prefix % 512) else 0
  }

  /** The entry a table holds for a page, NONE if it holds none. */
  function EntryOf(t: Table, ix: nat): (pte: Pte)
    requires ix < 512
  {
    if t[ix].v then t[ix] else NONE
  }

  /** The flat map a root stands for: the entry of a page, NONE if unmapped. */
  function Leaf(tables: Tables, root: nat, vpn: nat): (pte: Pte) {
    var t := TableAt(tables, root, 0, vpn / 512);
    if t in tables then EntryOf(tables[t], vpn % 512) else NONE
  }

  /** How many tables a level can have. */
  predicate PrefixOk(level: nat, prefix: nat) {
    && (level == 2 ==> prefix == 0)
    && (level == 1 ==> prefix < 512)
    && (level == 0 ==> prefix < 512 * 512)
  }

  /** Table t is where its role says it is. */
  ghost predicate Placed(tables: Tables, role: Roles, t: nat) {
    && t in role && role[t].Node? && role[t].level <= 2 && IsRoot(role, role[t].root) && role[t].root in tables
    && PrefixOk(role[t].level, role[t].prefix)
    && TableAt(tables, role[t].root, role[t].level, role[t].prefix) == t
  }

  /** What entry ix of table t holds fits t's role. */
  ghost predicate EntryFits(tables: Tables, role: Roles, t: nat, ix: nat)
    requires t in tables && t in role && role[t].Node? && ix < 512
  {
    var pte := tables[t][ix];
    pte.v ==>
      if role[t].level == 0 then IsLeaf(pte.perm)
      else
        && !IsLeaf(pte.perm) && pte.ppn in tables && pte.ppn in role
        && role[pte.ppn] == Node(role[t].root, role[t].level - 1, role[t].prefix * 512 + ix)
  }

  ghost predicate TablesOk(tables: Tables, role: Roles) {
    && 0 !in tables
    && (forall t :: t in tables ==> t in role && role[t].Node? && role[t].level <= 2)
    && (forall t {:trigger role[t]} :: t in role && role[t].Node? ==> t in tables)
    && (forall t {:trigger Placed(tables, role, t)} :: t in tables ==> Placed(tables, role, t))
    && (forall t, ix: nat {:trigger EntryFits(tables, role, t, ix)} :: t in tables && ix < 512 ==> EntryFits(tables, role, t, ix))
  }

  /** A walk ends at the table with that place. */
  lemma {:induction false} TableAtFound(tables: Tables, role: Roles, root: nat, level: nat, prefix: nat)
    requires TablesOk(tables, role) && IsRoot(role, root) && level <= 2 && PrefixOk(level, prefix)
    ensures var t := TableAt(tables, root, level, prefix);
      if t in tables then t in role && role[t] == Node(root, level, prefix) else t == 0
    decreases 2 - level
  {
    if level < 2 {
      TableAtFound(tables, role, root, level + 1, prefix / 512);
      var up := TableAt(tables, root, level + 1, prefix / 512);
      if up in tables {
        assert EntryFits(tables, role, up, prefix % 512);
        assert prefix / 512 * 512 + prefix % 512 == prefix;
      }
    }
  }

  /** No two pages of any address spaces share an entry: a table and an index in it belong to one page. */
  lemma EntriesApart(tables: Tables, role: Roles, root: nat, root': nat, vpn: nat, vpn': nat)
    requires TablesOk(tables, role) && IsRoot(role, root) && IsRoot(role, root') && vpn < SPACE && vpn' < SPACE
    requires TableAt(tables, root, 0, vpn / 512) in tables
    requires TableAt(tables, root, 0, vpn / 512) == TableAt(tables, root', 0, vpn' / 512) && Px(0, vpn) == Px(0, vpn')
    ensures root == root' && vpn == vpn'
  {
    TableAtFound(tables, role, root, 0, vpn / 512);
    TableAtFound(tables, role, root', 0, vpn' / 512);
    PreStep(1, vpn);
    PreStep(1, vpn');
    IndexBijection(Px(2, vpn), Px(1, vpn), Px(0, vpn), vpn);
    IndexBijection(Px(2, vpn), Px(1, vpn), Px(0, vpn), vpn');
  }

  // ---- The stored words ----

  /** Memory: the table pages, each a sequence of stored entries. */
  type Words = map<nat, seq<nat>>

  /** Memory holds every entry of every table in its stored form. */
  ghost predicate Mirrors(mem: Words, tables: Tables) {
    forall t :: t in tables ==> t in mem && |mem[t]| == 512 && forall ix: nat :: ix < 512 ==> mem[t][ix] == Raw(tables[t][ix])
  }

  /**
   Sv39 translation over the stored words, from a table of a level: the word at that level's index
   must be valid, ends the translation if it has R, W or X, and otherwise names the next table.
   The result is the word that ends it, 0 for a page fault.
   */
  function Translate(mem: Words, t: nat, level: nat, vpn: nat): (word: nat)
    requires level <= 2
    decreases level
  {
    if t !in mem || |mem[t]| != 512 then 0
    else
      var word := mem[t][Px(level, vpn)];
      var p := Parsed(word);
      if !p.v then 0
      else if IsLeaf(p.perm) then word
      else if level == 0 then 0
      else Translate(mem, word / 1024, level - 1, vpn)
  }

  lemma {:induction false} TranslateFrom(mem: Words, tables: Tables, role: Roles, t: nat, level: nat, vpn: nat)
    requires TablesOk(tables, role) && Mirrors(mem, tables) && level <= 2 && vpn < SPACE
    requires t in tables && role[t].level == level && role[t].prefix == Pre(level, vpn)
    ensures var leaf := Leaf(tables, role[t].root, vpn);
      Translate(mem, t, level, vpn) == if leaf.v then Raw(leaf) else 0
    decreases level
  {
    var e, root := tables[t][Px(level, vpn)], role[t].root;
    RawRoundTrip(e);
    assert Placed(tables, role, t) && EntryFits(tables, role, t, Px(level, vpn));
    if level > 0 {
      PreStep(level, vpn);
      assert TableAt(tables, root, level - 1, Pre(level - 1, vpn)) == Child(tables[t], Px(level, vpn));
      if e.v {
        TranslateFrom(mem, tables, role, e.ppn, level - 1, vpn);
      } else if level == 2 {
        PreStep(1, vpn);
      }
    }
  }

  /** The hardware sees the flat map: it finds the stored word of a mapped page, and faults on every other page. */
  lemma HardwareSeesLeaf(mem: Words, tables: Tables, role: Roles, root: nat, vpn: nat)
    requires TablesOk(tables, role) && Mirrors(mem, tables) && IsRoot(role, root) && vpn < SPACE
    ensures var leaf := Leaf(tables, root, vpn);
      && Translate(mem, root, 2, vpn) == (if leaf.v then Raw(leaf) else 0)
      && (leaf.v ==> Parsed(Translate(mem, root, 2, vpn)) == leaf && Translate(mem, root, 2, vpn) / 1024 == leaf.ppn)
  {
    TranslateFrom(mem, tables, role, root, 2, vpn);
    RawRoundTrip(Leaf(tables, root, vpn));
  }

  // ---- Linking a new table page ----

  function ZeroTable(): (t: Table)
    ensures forall ix: nat :: ix < 512 ==> t[ix] == NONE
  {
    seq(512, _ => NONE)
  }

  /** tables with a zeroed page n linked at entry ix of t. */
  function Linked(tables: Tables, t: nat, ix: nat, n: nat): (r: Tables)
    requires t in tables && ix < 512
  {
    tables[n := ZeroTable()][t := tables[t][ix := Pte(n, true, LINK)]]
  }

  function LinkedRole(role: Roles, t: nat, ix: nat, n: nat): (r: Roles)
    requires t in role && role[t].Node? && role[t].level > 0
  {
    role[n := Node(role[t].root, role[t].level - 1, role[t].prefix * 512 + ix)]
  }

  /** Nothing is reached where the new page goes. */
  lemma Vacant(tables: Tables, role: Roles, t: nat, ix: nat)
    requires TablesOk(tables, role) && t in tables && role[t].level > 0 && ix < 512 && !tables[t][ix].v
    ensures TableAt(tables, role[t].root, role[t].level - 1, role[t].prefix * 512 + ix) == 0
  {
    assert Placed(tables, role, t);
    assert (role[t].prefix * 512 + ix) / 512 == role[t].prefix && (role[t].prefix * 512 + ix) % 512 == ix;
  }

  /** One step down, in tables with and without the link: `up` and up' are where the steps above lead. */
  lemma LinkedStep(tables: Tables, role: Roles, t: nat, ix: nat, n: nat, up: nat, up': nat, at: Role)
    requires t in tables && t in role && role[t].Node? && role[t].level > 0 && ix < 512 && !tables[t][ix].v
    requires n !in tables && n != 0 && 0 !in tables && at.Node?
    requires if up in tables then up in role && role[up] == Node(at.root, at.level + 1, at.prefix / 512) else up == 0
    requires role[t] == Node(at.root, at.level + 1, at.prefix / 512) ==> up == t
    requires var nn := LinkedRole(role, t, ix, n)[n];
      if nn == Node(at.root, at.level + 1, at.prefix / 512) then up' == n && up == 0 else up' == up
    ensures var tables' := Linked(tables, t, ix, n);
      (if up' in tables' then Child(tables'[up'], at.prefix % 512) else 0)
      == (if at == LinkedRole(role, t, ix, n)[n] then n else if up in tables then Child(tables[up], at.prefix % 512) else 0)
  {
    assert at.prefix / 512 * 512 + at.prefix % 512 == at.prefix;
  }

  /** Only the new page's own place is reached differently. */
  lemma {:induction false} LinkedAt(tables: Tables, role: Roles, t: nat, ix: nat, n: nat, root: nat, level: nat, prefix: nat)
    requires TablesOk(tables, role) && t in tables && role[t].level > 0 && ix < 512 && !tables[t][ix].v
    requires n !in tables && n != 0
    requires IsRoot(role, root) && level <= 2 && PrefixOk(level, prefix)
    ensures TableAt(Linked(tables, t, ix, n), root, level, prefix)
      == if Node(root, level, prefix) == LinkedRole(role, t, ix, n)[n] then n else TableAt(tables, root, level, prefix)
    decreases 2 - level
  {
    assert Placed(tables, role, t);
    if level < 2 {
      LinkedAt(tables, role, t, ix, n, root, level + 1, prefix / 512);
      TableAtFound(tables, role, root, level + 1, prefix / 512);
      Vacant(tables, role, t, ix);
      var up := TableAt(tables, root, level + 1, prefix / 512);
      var up' := TableAt(Linked(tables, t, ix, n), root, level + 1, prefix / 512);
      LinkedStep(tables, role, t, ix, n, up, up', Node(root, level, prefix));
    }
  }

  lemma LinkPlaced(tables: Tables, role: Roles, t: nat, ix: nat, n: nat, x: nat)
    requires TablesOk(tables, role) && t in tables && role[t].level > 0 && ix < 512 && !tables[t][ix].v
    requires n !in tables && n != 0 && (x in tables || x == n)
    ensures Placed(Linked(tables, t, ix, n), LinkedRole(role, t, ix, n), x)
  {
    var at := LinkedRole(role, t, ix, n)[x];
    assert Placed(tables, role, t);
    if x != n { assert Placed(tables, role, x); }
    Vacant(tables, role, t, ix);
    LinkedAt(tables, role, t, ix, n, at.root, at.level, at.prefix);
  }

  lemma LinkFits(tables: Tables, role: Roles, t: nat, ix: nat, n: nat, x: nat, j: nat)
    requires TablesOk(tables, role) && t in tables && role[t].level > 0 && ix < 512 && !tables[t][ix].v
    requires n !in tables && n != 0 && (x in tables || x == n) && j < 512
    ensures EntryFits(Linked(tables, t, ix, n), LinkedRole(role, t, ix, n), x, j)
  {
    if x != n { assert EntryFits(tables, role, x, j); }
  }

  /** The link keeps the tables well formed. */
  lemma LinkKeeps(tables: Tables, role: Roles, t: nat, ix: nat, n: nat)
    requires TablesOk(tables, role) && t in tables && role[t].level > 0 && ix < 512 && !tables[t][ix].v
    requires n !in tables && n != 0
    ensures TablesOk(Linked(tables, t, ix, n), LinkedRole(role, t, ix, n))
  {
    var tables', role' := Linked(tables, t, ix, n), LinkedRole(role, t, ix, n);
    forall x | x in tables' ensures Placed(tables', role', x) {
      LinkPlaced(tables, role, t, ix, n, x);
    }
    forall x, j: nat | x in tables' && j < 512 ensures EntryFits(tables', role', x, j) {
      LinkFits(tables, role, t, ix, n, x, j);
    }
  }

  /** ... and the flat maps of all roots as they were. */
  lemma LinkLeaf(tables: Tables, role: Roles, t: nat, ix: nat, n: nat, root: nat, vpn: nat)
    requires TablesOk(tables, role) && t in tables && role[t].level > 0 && ix < 512 && !tables[t][ix].v
    requires n !in tables && n != 0 && IsRoot(role, root) && vpn < SPACE
    ensures Leaf(Linked(tables, t, ix, n), root, vpn) == Leaf(tables, root, vpn)
  {
    LinkedAt(tables, role, t, ix, n, root, 0, vpn / 512);
    TableAtFound(tables, role, root, 0, vpn / 512);
    Vacant(tables, role, t, ix);
  }

  // ---- Writing a leaf ----

  function Stored(tables: Tables, t: nat, ix: nat, pte: Pte): (r: Tables)
    requires t in tables && ix < 512
  {
    tables[t := tables[t][ix := pte]]
  }

  lemma {:induction false} StoredAt(tables: Tables, role: Roles, t: nat, ix: nat, pte: Pte, root: nat, level: nat, prefix: nat)
    requires TablesOk(tables, role) && t in tables && role[t].level == 0 && ix < 512
    requires IsRoot(role, root) && level <= 2 && PrefixOk(level, prefix)
    ensures TableAt(Stored(tables, t, ix, pte), root, level, prefix) == TableAt(tables, root, level, prefix)
    decreases 2 - level
  {
    if level < 2 {
      StoredAt(tables, role, t, ix, pte, root, level + 1, prefix / 512);
      TableAtFound(tables, role, root, level + 1, prefix / 512);
    }
  }

  lemma StoreKeeps(tables: Tables, role: Roles, t: nat, ix: nat, pte: Pte)
    requires TablesOk(tables, role) && t in tables && role[t].level == 0 && ix < 512 && (pte.v ==> IsLeaf(pte.perm))
    ensures TablesOk(Stored(tables, t, ix, pte), role)
  {
    var tables' := Stored(tables, t, ix, pte);
    forall x | x in tables' ensures Placed(tables', role, x) {
      assert Placed(tables, role, x);
      StoredAt(tables, role, t, ix, pte, role[x].root, role[x].level, role[x].prefix);
    }
    forall x, j: nat | x in tables' && j < 512 ensures EntryFits(tables', role, x, j) {
      assert EntryFits(tables, role, x, j);
    }
  }

  /** A store changes the flat map of one root at one page. */
  lemma StoreLeaf(tables: Tables, role: Roles, t: nat, ix: nat, pte: Pte, root: nat, vpn: nat)
    requires TablesOk(tables, role) && t in tables && role[t].level == 0 && ix < 512
    requires IsRoot(role, root) && vpn < SPACE
    ensures Leaf(Stored(tables, t, ix, pte), root, vpn)
      == if root == role[t].root && vpn == role[t].prefix * 512 + ix then (if pte.v then pte else NONE)
         else Leaf(tables, root, vpn)
  {
    StoredAt(tables, role, t, ix, pte, root, 0, vpn / 512);
    TableAtFound(tables, role, root, 0, vpn / 512);
    assert Placed(tables, role, t);
    assert vpn / 512 * 512 + vpn % 512 == vpn;
  }
}
