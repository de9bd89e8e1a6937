/**
 The transaction layer of kernel/tx.c and kernel/systx.c: a transaction's
 workset, txshadow, and the lock/swap/unlock/finish loops of commit and abort.
 Objects are named by the address of their header; their payloads live in pages
 that `kalloc` hands out and only the pointer to the payload is swapped.
 */
module Tx {

  const MAX_WORKSET: nat := 16

  type Header = nat
  type Page = nat
  type Data = seq<int>
  type TxId = nat

  datatype Status = Inactive | Running | Aborted | Committed

  datatype Entry = Entry(header: Header, shadow: Page, readOnly: bool)

  // ---- Worksets ----

  /** Strictly sorted by header address. */
  ghost predicate Sorted(ws: seq<Entry>) {
    forall i, j :: 0 <= i < j < |ws| ==> ws[i].header < ws[j].header
  }

  predicate Has(ws: seq<Entry>, h: Header) {
    exists i :: 0 <= i < |ws| && ws[i].header == h
  }

  /** Where txshadow's bubbling loop leaves a new entry. */
  function Inserted(ws: seq<Entry>, e: Entry): (r: seq<Entry>)
    ensures |r| == |ws| + 1
  {
    if ws == [] || ws[|ws| - 1].header <= e.header then ws + [e]
    else Inserted(ws[..|ws| - 1], e) + [ws[|ws| - 1]]
  }

  lemma {:induction false} InsertedElements(ws: seq<Entry>, e: Entry)
    ensures multiset(Inserted(ws, e)) == multiset(ws) + multiset{e}
    ensures forall x :: x in Inserted(ws, e) <==> x in ws || x == e
  {
    if ws != [] && ws[|ws| - 1].header > e.header {
      var front, last := ws[..|ws| - 1], ws[|ws| - 1];
      assert ws == front + [last];
      InsertedElements(front, e);
    }
  }

  /** Each entry of the new workset is the new entry or one of the old ones. */
  lemma InsertedFrom(ws: seq<Entry>, e: Entry, j: nat) returns (i: nat)
    requires j <= |ws|
    ensures Inserted(ws, e)[j] == e || (i < |ws| && Inserted(ws, e)[j] == ws[i])
  {
    InsertedElements(ws, e);
    var x := Inserted(ws, e)[j];
    assert x in Inserted(ws, e);
    i := 0;
    if x != e {
      i :| i < |ws| && ws[i] == x;
    }
  }

  /** The new entry splits the old workset: smaller headers before it, larger ones after. */
  lemma {:induction false} InsertedAt(ws: seq<Entry>, e: Entry) returns (k: nat)
    requires Sorted(ws) && !Has(ws, e.header)
    ensures k <= |ws| && Inserted(ws, e) == ws[..k] + [e] + ws[k..]
    ensures forall i :: 0 <= i < k ==> ws[i].header < e.header
    ensures forall i :: k <= i < |ws| ==> e.header < ws[i].header
  {
    if ws == [] || ws[|ws| - 1].header <= e.header {
      k := |ws|;
      assert ws[..k] == ws && ws[k..] == [];
    } else {
      var front, last := ws[..|ws| - 1], ws[|ws| - 1];
      forall i | 0 <= i < |front| ensures front[i].header != e.header {
        assert ws[i].header != e.header;
      }
      k := InsertedAt(front, e);
      assert ws[..k] == front[..k] && ws[k..] == front[k..] + [last];
    }
  }

  /** ws with e put at position k. */
  function PutAt(ws: seq<Entry>, e: Entry, k: nat): (r: seq<Entry>)
    requires k <= |ws|
    ensures |r| == |ws| + 1
  {
    ws[..k] + [e] + ws[k..]
  }

  lemma PutAtHas(ws: seq<Entry>, e: Entry, k: nat, h: Header)
    requires k <= |ws|
    ensures Has(PutAt(ws, e, k), h) <==> Has(ws, h) || h == e.header
  {
    var r := PutAt(ws, e, k);
    assert r[k] == e;
    if Has(ws, h) {
      var i :| 0 <= i < |ws| && ws[i].header == h;
      assert r[if i < k then i else i + 1].header == h;
    }
    if Has(r, h) && h != e.header {
      var i :| 0 <= i < |r| && r[i].header == h;
      assert ws[if i < k then i else i - 1].header == h;
    }
  }

  lemma PutAtSorted(ws: seq<Entry>, e: Entry, k: nat)
    requires Sorted(ws) && k <= |ws|
    requires forall i :: 0 <= i < k ==> ws[i].header < e.header
    requires forall i :: k <= i < |ws| ==> e.header < ws[i].header
    ensures Sorted(PutAt(ws, e, k))
  {
    var r := PutAt(ws, e, k);
    forall i, j | 0 <= i < j < |r| ensures r[i].header < r[j].header {
      assert r[i] == if i < k then ws[i] else if i == k then e else ws[i - 1];
      assert r[j] == if j < k then ws[j] else if j == k then e else ws[j - 1];
    }
  }

  lemma InsertedSorted(ws: seq<Entry>, e: Entry)
    requires Sorted(ws) && !Has(ws, e.header)
    ensures Sorted(Inserted(ws, e))
    ensures forall h :: Has(Inserted(ws, e), h) <==> Has(ws, h) || h == e.header
  {
    var k := InsertedAt(ws, e);
    PutAtSorted(ws, e, k);
    forall h ensures Has(Inserted(ws, e), h) <==> Has(ws, h) || h == e.header {
      PutAtHas(ws, e, k, h);
    }
  }

  /** Swapping e with its larger left neighbour. */
  lemma SwapDown(ws: seq<Entry>, e: Entry, i: nat)
    requires 0 < i <= |ws|
    ensures PutAt(ws, e, i)[i - 1] == ws[i - 1] && PutAt(ws, e, i)[i] == e
    ensures PutAt(ws, e, i)[i := ws[i - 1]][i - 1 := e] == PutAt(ws, e, i - 1)
  {
  }

  lemma BubbleStep(ws: seq<Entry>, e: Entry, i: nat)
    requires 0 < i <= |ws| && ws[i - 1].header > e.header
    ensures Inserted(ws[..i], e) + ws[i..] == Inserted(ws[..i - 1], e) + ws[i - 1..]
  {
    assert ws[..i][..i - 1] == ws[..i - 1];
    assert ws[i - 1..] == [ws[i - 1]] + ws[i..];
  }

  // ---- Payload pointers after the swap loop ----

  /** The payload pointers after the first k swaps of sys_txcommit. */
  function Swapped(data: map<Header, Page>, ws: seq<Entry>, k: nat): (r: map<Header, Page>)
    requires k <= |ws|
    ensures r.Keys == data.Keys + Headers(ws, k)
  {
    if k == 0 then data else Swapped(data, ws, k - 1)[ws[k - 1].header := ws[k - 1].shadow]
  }

  lemma {:induction false} SwappedAt(data: map<Header, Page>, ws: seq<Entry>, k: nat)
    requires Sorted(ws) && k <= |ws|
    ensures forall i :: 0 <= i < k ==> ws[i].header in Swapped(data, ws, k) && Swapped(data, ws, k)[ws[i].header] == ws[i].shadow
    ensures forall h :: h in data && h !in Headers(ws, k) ==> Swapped(data, ws, k)[h] == data[h]
  {
    if k > 0 {
      SwappedAt(data, ws, k - 1);
    }
  }

  /** The swap loop sees each object's old payload pointer. */
  lemma SwapSeesOld(data: map<Header, Page>, ws: seq<Entry>, i: nat)
    requires Sorted(ws) && i < |ws| && ws[i].header in data
    ensures Swapped(data, ws, i)[ws[i].header] == data[ws[i].header]
  {
    SwappedAt(data, ws, i);
    HeadersAt(ws, i);
  }

  /** The headers of the first k entries. */
  function Headers(ws: seq<Entry>, k: nat): (r: set<Header>)
    requires k <= |ws|
  {
    if k == 0 then {} else Headers(ws, k - 1) + {ws[k - 1].header}
  }

  lemma {:induction false} HeadersAt(ws: seq<Entry>, k: nat)
    requires k <= |ws|
    ensures forall h :: h in Headers(ws, k) <==> exists i :: 0 <= i < k && ws[i].header == h
  {
    if k > 0 {
      HeadersAt(ws, k - 1);
    }
  }

  /** The pages the swap loop gives back: the old payloads. */
  function OldPages(data: map<Header, Page>, ws: seq<Entry>, k: nat): (r: set<Page>)
    requires k <= |ws| && forall i :: 0 <= i < |ws| ==> ws[i].header in data
  {
    if k == 0 then {} else OldPages(data, ws, k - 1) + {data[ws[k - 1].header]}
  }

  lemma {:induction false} OldPagesAt(data: map<Header, Page>, ws: seq<Entry>, k: nat)
    requires k <= |ws| && forall i :: 0 <= i < |ws| ==> ws[i].header in data
    ensures forall e :: e in ws ==> e.header in data
    ensures forall p :: p in OldPages(data, ws, k) <==> exists e :: e in ws[..k] && data[e.header] == p
  {
    if k > 0 {
      OldPagesAt(data, ws, k - 1);
      assert ws[..k] == ws[..k - 1] + [ws[k - 1]];
    }
  }

  function ShadowPages(ws: seq<Entry>, k: nat): (r: set<Page>)
    requires k <= |ws|
  {
    if k == 0 then {} else ShadowPages(ws, k - 1) + {ws[k - 1].shadow}
  }

  lemma {:induction false} ShadowPagesAt(ws: seq<Entry>, k: nat)
    requires k <= |ws|
    ensures forall p :: p in ShadowPages(ws, k) <==> exists x :: x in ws[..k] && x.shadow == p
  {
    if k > 0 {
      ShadowPagesAt(ws, k - 1);
      assert ws[..k] == ws[..k - 1] + [ws[k - 1]];
    }
  }

  /** The payload pointers of the workset's objects are at the shadows, and no other pointer has moved. */
  ghost predicate PointersMoved(data: map<Header, Page>, ws: seq<Entry>, data': map<Header, Page>) {
    && data'.Keys == data.Keys
    && (forall e :: e in ws ==> e.header in data' && data'[e.header] == e.shadow)
    && forall h :: h in data && !Has(ws, h) ==> data'[h] == data[h]
  }

  /** Exactly the old payloads of the workset's objects are gone. */
  ghost predicate PayloadsFreed(data: map<Header, Page>, mem: map<Page, Data>, ws: seq<Entry>, mem': map<Page, Data>) {
    && (forall p :: p in mem' <==> p in mem && forall e :: e in ws && e.header in data ==> data[e.header] != p)
    && forall p :: p in mem' ==> mem'[p] == mem[p]
  }

  /** Exactly the shadows of the workset are gone. */
  ghost predicate ShadowsFreed(mem: map<Page, Data>, ws: seq<Entry>, mem': map<Page, Data>) {
    && (forall p :: p in mem' <==> p in mem && forall e :: e in ws ==> e.shadow != p)
    && forall p :: p in mem' ==> mem'[p] == mem[p]
  }

  lemma SwapsMove(data: map<Header, Page>, ws: seq<Entry>)
    requires Sorted(ws) && forall i :: 0 <= i < |ws| ==> ws[i].header in data
    ensures PointersMoved(data, ws, Swapped(data, ws, |ws|))
  {
    SwappedAt(data, ws, |ws|);
    HeadersAt(ws, |ws|);
  }

  lemma SwapsFree(data: map<Header, Page>, mem: map<Page, Data>, ws: seq<Entry>)
    requires forall i :: 0 <= i < |ws| ==> ws[i].header in data
    ensures PayloadsFreed(data, mem, ws, mem - OldPages(data, ws, |ws|))
  {
    OldPagesAt(data, ws, |ws|);
    assert ws[..|ws|] == ws;
  }

  lemma AbortFrees(mem: map<Page, Data>, ws: seq<Entry>)
    ensures ShadowsFreed(mem, ws, mem - ShadowPages(ws, |ws|))
  {
    ShadowPagesAt(ws, |ws|);
    assert ws[..|ws|] == ws;
  }

  /** A new entry adds its shadow to the workset's pages. */
  lemma InsertedPages(ws: seq<Entry>, e: Entry)
    ensures ShadowPages(Inserted(ws, e), |ws| + 1) == ShadowPages(ws, |ws|) + {e.shadow}
  {
    var r := Inserted(ws, e);
    InsertedElements(ws, e);
    ShadowPagesAt(ws, |ws|);
    ShadowPagesAt(r, |r|);
    assert ws[..|ws|] == ws && r[..|r|] == r;
    assert e in r;
  }

  /** The locks after the first k acquisitions. */
  function Locked(locks: map<Header, TxId>, ws: seq<Entry>, k: nat, id: TxId): (r: map<Header, TxId>)
    requires k <= |ws|
    ensures r.Keys == locks.Keys + Headers(ws, k)
  {
    if k == 0 then locks else Locked(locks, ws, k - 1, id)[ws[k - 1].header := id]
  }

  /** After `before`, the locks of the workset were taken, one after another from its front. */
  ghost predicate TookInOrder(before: seq<Header>, ws: seq<Entry>, after: seq<Header>) {
    |after| == |before| + |ws| && before <= after && forall i :: 0 <= i < |ws| ==> after[|before| + i] == ws[i].header
  }

  /** Unlocking undoes locking. */
  lemma {:induction false} LockedThenUnlocked(locks: map<Header, TxId>, ws: seq<Entry>, k: nat, id: TxId)
    requires k <= |ws| && locks.Keys !! Headers(ws, k)
    ensures Locked(locks, ws, k, id) - Headers(ws, k) == locks
  {
    if k > 0 {
      LockedThenUnlocked(locks, ws, k - 1, id);
    }
  }

  lemma MinusPages(mem: map<Page, Data>, pages: set<Page>, p: Page)
    ensures mem - pages - {p} == mem - (pages + {p})
  {
  }

  /** The kernel objects and their payload pages. */
  class Kernel {
    var writer: map<Header, TxId>  // xobj->writer; absent means 0
    var data: map<Header, Page>    // header->data
    var mem: map<Page, Data>       // allocated pages
    var locks: map<Header, TxId>   // sleeplocks held by transactions
    ghost var taken: seq<Header>   // the sleeplocks in the order in which they were taken

    constructor (data: map<Header, Page>, mem: map<Page, Data>)
      ensures this.data == data && this.mem == mem && writer == map[] && locks == map[] && taken == []
    {
      this.data, this.mem, writer, locks, taken := data, mem, map[], map[], [];
    }
  }

  datatype Access = Shadow(page: Page) | Refused

  /** struct transaction. */
  class Transaction {
    const id: TxId
    const kernel: Kernel
    const workset: array<Entry>
    var size: nat
    var status: Status
    ghost var owned: set<Page> // shadows taken and neither swapped in nor freed

    ghost predicate Valid()
      reads this, workset
    {
      workset.Length == MAX_WORKSET && size <= MAX_WORKSET && Sorted(workset[..size])
    }

    ghost function Workset(): (ws: seq<Entry>)
      reads this, workset
      requires size <= workset.Length
    {
      workset[..size]
    }

    /** The workset has every shadow the transaction owns, and none outside a transaction. */
    ghost predicate Tracked()
      reads this, workset
      requires size <= workset.Length
    {
      owned == ShadowPages(Workset(), size) && (status != Running ==> size == 0)
    }

    constructor (id: TxId, kernel: Kernel)
      ensures Valid() && Tracked() && fresh(workset) && status == Inactive && size == 0
      ensures this.id == id && this.kernel == kernel
    {
      this.id, this.kernel := id, kernel;
      workset := new Entry[MAX_WORKSET](_ => Entry(0, 0, false));
      size, status, owned := 0, Inactive, {};
    }

    /** Binary search by header address. */
    method FindWorksetEntry(h: Header) returns (at: int)
      requires Valid()
      ensures at == -1 || (0 <= at < size && workset[at].header == h)
      ensures at == -1 <==> !Has(Workset(), h)
    {
      var left, right := 0, size - 1;
      while left <= right
        invariant 0 <= left <= right + 1 <= size
        invariant forall i :: 0 <= i < left ==> Workset()[i].header < h
        invariant forall i :: right < i < size ==> h < Workset()[i].header
        decreases right - left
      {
        var mid := left + (right - left) / 2;
        assert workset[mid] == Workset()[mid];
        if workset[mid].header == h {
          return mid;
        } else if workset[mid].header < h {
          left := mid + 1;
        } else {
          right := mid - 1;
        }
      }
      return -1;
    }

    /** Append e and bubble it down to its place. */
    method Insert(e: Entry)
      requires size < workset.Length
      modifies this`size, workset
      ensures size == old(size) + 1 && Workset() == Inserted(old(Workset()), e)
    {
      ghost var ws := Workset();
      workset[size] := e;
      size := size + 1;
      var i := size - 1;
      assert ws[..i] == ws && ws[i..] == [];
      while i > 0 && workset[i - 1].header > workset[i].header
        invariant 0 <= i < size == |ws| + 1 <= workset.Length
        invariant workset[..size] == PutAt(ws, e, i)
        invariant Inserted(ws, e) == Inserted(ws[..i], e) + ws[i..]
      {
        SwapDown(ws, e, i);
        assert workset[i - 1] == workset[..size][i - 1] && workset[i] == workset[..size][i];
        BubbleStep(ws, e, i);
        workset[i], workset[i - 1] := workset[i - 1], workset[i];
        i := i - 1;
      }
      assert workset[i] == workset[..size][i] && (i > 0 ==> workset[i - 1] == workset[..size][i - 1]);
      assert i > 0 ==> ws[..i][i - 1] == ws[i - 1];
    }

    /**
     txshadow; `page` is what kalloc returns.  The first access to an object takes it for this
     transaction and copies its payload, later ones find the copy; a full workset or an object
     that another transaction has taken refuses.
     */
    method TxShadow(h: Header, readOnly: bool, page: Page) returns (r: Access)
      requires Valid() && h in kernel.data && kernel.data[h] in kernel.mem && page !in kernel.mem
      modifies this`size, this`owned, workset, kernel
      ensures Valid() && kernel.data == old(kernel.data) && kernel.locks == old(kernel.locks)
      ensures old(Tracked()) && status == Running ==> Tracked()
      ensures old(Has(Workset(), h)) ==> exists i :: 0 <= i < size && workset[i].header == h && r == Shadow(workset[i].shadow)
      ensures old(Has(Workset(), h)) || r.Refused? ==>
        Workset() == old(Workset()) && kernel.writer == old(kernel.writer) && kernel.mem == old(kernel.mem)
      ensures !old(Has(Workset(), h)) ==>
        && (r.Refused? <==> old(size) == MAX_WORKSET || (h in old(kernel.writer) && old(kernel.writer)[h] != id))
        && (!r.Refused? ==>
             && r == Shadow(page)
             && Workset() == Inserted(old(Workset()), Entry(h, page, readOnly))
             && kernel.writer == old(kernel.writer)[h := id]
             && kernel.mem == old(kernel.mem)[page := old(kernel.mem)[kernel.data[h]]])
    {
      var at := FindWorksetEntry(h);
      if at != -1 {
        return Shadow(workset[at].shadow);
      }
      if size >= MAX_WORKSET {
        return Refused;
      }
      if h in kernel.writer && kernel.writer[h] != id {
        return Refused;
      }
      Take(Entry(h, page, readOnly));
      return Shadow(page);
    }

    /** Become the object's writer, copy its payload and add the entry. */
    method Take(e: Entry)
      requires Valid() && size < MAX_WORKSET && !Has(Workset(), e.header)
      requires e.header in kernel.data && kernel.data[e.header] in kernel.mem
      modifies this`size, this`owned, workset, kernel`writer, kernel`mem
      ensures Valid() && (old(Tracked()) && status == Running ==> Tracked())
      ensures Workset() == Inserted(old(Workset()), e) && kernel.writer == old(kernel.writer)[e.header := id]
      ensures kernel.mem == old(kernel.mem)[e.shadow := old(kernel.mem)[kernel.data[e.header]]]
    {
      kernel.writer := kernel.writer[e.header := id];
      kernel.mem := kernel.mem[e.shadow := kernel.mem[kernel.data[e.header]]];
      InsertedSorted(Workset(), e);
      InsertedPages(Workset(), e);
      owned := owned + {e.shadow};
      Insert(e);
    }

    /**
     sys_txbegin.  It empties the workset whatever the status, so the transaction keeps track of its
     shadows exactly if it has none: a second txbegin after an access leaves them behind.
     */
    method SysTxBegin()
      requires Valid() && Tracked()
      modifies this`status, this`size
      ensures Valid() && status == Running && Workset() == []
      ensures Tracked() <==> old(Workset()) == []
      ensures old(status) != Running ==> Tracked()
    {
      ShadowPagesAt(Workset(), size);
      assert size > 0 ==> Workset()[0] in Workset()[..size];
      status, size := Running, 0;
    }

    /** The lock loop: every object of the workset, in address order. */
    method LockAll()
      requires size <= workset.Length
      modifies kernel`locks, kernel`taken
      ensures kernel.locks == Locked(old(kernel.locks), Workset(), size, id)
      ensures TookInOrder(old(kernel.taken), Workset(), kernel.taken)
    {
      ghost var ws, l0 := Workset(), kernel.locks;
      for i := 0 to size
        invariant kernel.locks == Locked(l0, ws, i, id)
        invariant TookInOrder(old(kernel.taken), ws[..i], kernel.taken)
      {
        kernel.locks := kernel.locks[workset[i].header := id];
        kernel.taken := kernel.taken + [workset[i].header];
      }
    }

    method UnlockAll()
      requires size <= workset.Length
      modifies kernel`locks
      ensures kernel.locks == old(kernel.locks) - Headers(Workset(), size)
    {
      ghost var ws, l0 := Workset(), kernel.locks;
      for i := 0 to size
        invariant kernel.locks == l0 - Headers(ws, i)
      {
        kernel.locks := kernel.locks - {workset[i].header};
      }
    }

    /** Free each old payload and make the shadow the payload. */
    method SwapAll()
      requires Valid() && forall i :: 0 <= i < size ==> Workset()[i].header in kernel.data
      modifies kernel`data, kernel`mem
      ensures kernel.data == Swapped(old(kernel.data), Workset(), size)
      ensures kernel.mem == old(kernel.mem) - OldPages(old(kernel.data), Workset(), size)
    {
      ghost var ws, d0, m0 := Workset(), kernel.data, kernel.mem;
      for i := 0 to size
        invariant kernel.data == Swapped(d0, ws, i)
        invariant kernel.mem == m0 - OldPages(d0, ws, i)
      {
        SwapSeesOld(d0, ws, i);
        assert workset[i] == ws[i];
        MinusPages(m0, OldPages(d0, ws, i), d0[ws[i].header]);
        SwapEntry(workset[i]);
      }
    }

    /** One iteration of the swap loop. */
    method SwapEntry(e: Entry)
      requires e.header in kernel.data
      modifies kernel`data, kernel`mem
      ensures kernel.data == old(kernel.data)[e.header := e.shadow]
      ensures kernel.mem == old(kernel.mem) - {old(kernel.data)[e.header]}
    {
      kernel.mem := kernel.mem - {kernel.data[e.header]};
      kernel.data := kernel.data[e.header := e.shadow];
    }

    /** Lock all, swap all, unlock all. */
    method CommitLoops()
      requires Valid() && kernel.locks.Keys !! Headers(Workset(), size)
      requires forall i :: 0 <= i < size ==> Workset()[i].header in kernel.data
      modifies kernel`locks, kernel`taken, kernel`data, kernel`mem
      ensures kernel.locks == old(kernel.locks) && TookInOrder(old(kernel.taken), Workset(), kernel.taken)
      ensures kernel.data == Swapped(old(kernel.data), Workset(), size)
      ensures kernel.mem == old(kernel.mem) - OldPages(old(kernel.data), Workset(), size)
    {
      ghost var ws := Workset();
      LockedThenUnlocked(kernel.locks, ws, size, id);
      LockAll();
      assert Workset() == ws;
      SwapAll();
      assert Workset() == ws;
      UnlockAll();
    }

    /**
     sys_txcommit, with nobody else holding the locks: the payload pointers of exactly the workset's
     objects move to the shadows, the old payloads are freed, and every lock is returned.
     */
    method SysTxCommit() returns (ok: bool)
      requires Valid() && kernel.locks.Keys !! Headers(Workset(), size)
      requires forall i :: 0 <= i < size ==> Workset()[i].header in kernel.data
      modifies this`status, this`size, this`owned, kernel`locks, kernel`taken, kernel`data, kernel`mem
      ensures Valid() && kernel.writer == old(kernel.writer) && kernel.locks == old(kernel.locks)
      ensures ok || old(Tracked()) ==> Tracked()
      ensures ok <==> old(status) == Running
      ensures !ok ==>
        && status == old(status) && size == old(size)
        && kernel.data == old(kernel.data) && kernel.mem == old(kernel.mem)
      ensures ok ==>
        && status == Committed && size == 0 && TookInOrder(old(kernel.taken), old(Workset()), kernel.taken)
        && PointersMoved(old(kernel.data), old(Workset()), kernel.data)
        && PayloadsFreed(old(kernel.data), old(kernel.mem), old(Workset()), kernel.mem)
    {
      if status != Running {
        return false;
      }
      status := Committed;
      SwapsMove(kernel.data, Workset());
      SwapsFree(kernel.data, kernel.mem, Workset());
      CommitLoops();
      size, owned := 0, {};
      return true;
    }

    /** Lock all, unlock all, free all shadows. */
    method AbortLoops()
      requires Valid() && kernel.locks.Keys !! Headers(Workset(), size)
      modifies kernel`locks, kernel`taken, kernel`mem
      ensures kernel.locks == old(kernel.locks) && TookInOrder(old(kernel.taken), Workset(), kernel.taken)
      ensures kernel.mem == old(kernel.mem) - ShadowPages(Workset(), size)
    {
      ghost var ws := Workset();
      LockedThenUnlocked(kernel.locks, ws, size, id);
      LockAll();
      assert Workset() == ws;
      UnlockAll();
      assert Workset() == ws;
      FreeShadows();
    }

    /** sys_txabort: every shadow is freed, no payload pointer moves, every lock is returned. */
    method SysTxAbort() returns (ok: bool)
      requires Valid() && kernel.locks.Keys !! Headers(Workset(), size)
      modifies this`status, this`size, this`owned, kernel`locks, kernel`taken, kernel`mem
      ensures Valid() && kernel.writer == old(kernel.writer) && kernel.locks == old(kernel.locks)
      ensures ok || old(Tracked()) ==> Tracked()
      ensures ok <==> old(status) == Running
      ensures !ok ==> status == old(status) && size == old(size) && kernel.mem == old(kernel.mem)
      ensures ok ==>
        && status == Aborted && size == 0 && TookInOrder(old(kernel.taken), old(Workset()), kernel.taken)
        && ShadowsFreed(old(kernel.mem), old(Workset()), kernel.mem)
    {
      if status != Running {
        return false;
      }
      status := Aborted;
      AbortFrees(kernel.mem, Workset());
      AbortLoops();
      size, owned := 0, {};
      return true;
    }

    /** The abort_fn loop. */
    method FreeShadows()
      requires size <= workset.Length
      modifies kernel`mem
      ensures kernel.mem == old(kernel.mem) - ShadowPages(Workset(), size)
    {
      ghost var ws, m0 := Workset(), kernel.mem;
      for i := 0 to size
        invariant kernel.mem == m0 - ShadowPages(ws, i)
      {
        assert workset[i] == ws[i];
        kernel.mem := kernel.mem - {workset[i].shadow};
      }
    }
  }
}
