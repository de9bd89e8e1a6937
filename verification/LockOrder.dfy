/**
 Address-ordered locking on its own, without exclusive ownership: worksets may
 overlap.  Each transaction locks its sorted workset from the front, and when it
 has all of it, unlocks it from the front.
 */
module LockOrder {
  import opened Tx

  /** One transaction in the lock and unlock loops: entries freed .. got are locked. */
  datatype Locker = Locker(ws: seq<Entry>, got: nat, freed: nat)

  predicate HoldsAt(l: Locker, j: nat) {
    l.freed <= j < l.got <= |l.ws|
  }

  ghost predicate LockerOk(l: Locker) {
    l.freed <= l.got <= |l.ws| && Sorted(l.ws) && (l.freed > 0 ==> l.got == |l.ws|)
  }

  /** The locks that are held are those between the two loops, each by the transaction that has it. */
  ghost predicate Valid(ls: seq<Locker>, holder: map<Header, nat>) {
    && (forall t :: 0 <= t < |ls| ==> LockerOk(ls[t]))
    && (forall h :: h in holder ==>
          holder[h] < |ls| && exists j: nat :: HoldsAt(ls[holder[h]], j) && ls[holder[h]].ws[j].header == h)
    && forall t: nat, j: nat :: t < |ls| && HoldsAt(ls[t], j) ==>
         ls[t].ws[j].header in holder && holder[ls[t].ws[j].header] == t
  }

  // ---- Steps ----

  /** t has all its locks. */
  predicate Done(l: Locker) {
    l.got >= |l.ws|
  }

  /** t can take its next lock, or give back its next one. */
  predicate CanStep(ls: seq<Locker>, holder: map<Header, nat>, t: nat) {
    && t < |ls|
    && if Done(ls[t]) then ls[t].freed < |ls[t].ws| else ls[t].ws[ls[t].got].header !in holder
  }

  function Stepped(l: Locker): (r: Locker) {
    if Done(l) then l.(freed := l.freed + 1) else l.(got := l.got + 1)
  }

  function Held(l: Locker, t: nat, holder: map<Header, nat>): (r: map<Header, nat>) {
    if !Done(l) then holder[l.ws[l.got].header := t]
    else if l.freed < |l.ws| then holder - {l.ws[l.freed].header}
    else holder
  }

  lemma LockKeeps(ls: seq<Locker>, holder: map<Header, nat>, t: nat)
    requires Valid(ls, holder) && CanStep(ls, holder, t) && !Done(ls[t])
    ensures Valid(ls[t := Stepped(ls[t])], Held(ls[t], t, holder))
  {
    var ls', holder', i := ls[t := Stepped(ls[t])], Held(ls[t], t, holder), ls[t].got;
    assert LockerOk(ls[t]);
    forall h | h in holder'
      ensures holder'[h] < |ls'| && exists j: nat :: HoldsAt(ls'[holder'[h]], j) && ls'[holder'[h]].ws[j].header == h
    {
      if h == ls[t].ws[i].header {
        assert HoldsAt(ls'[t], i);
      } else {
        var j: nat :| HoldsAt(ls[holder[h]], j) && ls[holder[h]].ws[j].header == h;
        assert HoldsAt(ls'[holder[h]], j);
      }
    }
    forall u: nat, j: nat | u < |ls'| && HoldsAt(ls'[u], j)
      ensures ls'[u].ws[j].header in holder' && holder'[ls'[u].ws[j].header] == u
    {
      if u != t || j != i { assert HoldsAt(ls[u], j); }
    }
  }

  lemma UnlockKeeps(ls: seq<Locker>, holder: map<Header, nat>, t: nat)
    requires Valid(ls, holder) && CanStep(ls, holder, t) && Done(ls[t])
    ensures Valid(ls[t := Stepped(ls[t])], Held(ls[t], t, holder))
  {
    var ls', holder', i := ls[t := Stepped(ls[t])], Held(ls[t], t, holder), ls[t].freed;
    assert LockerOk(ls[t]) && HoldsAt(ls[t], i);
    forall h | h in holder'
      ensures holder'[h] < |ls'| && exists j: nat :: HoldsAt(ls'[holder'[h]], j) && ls'[holder'[h]].ws[j].header == h
    {
      var j: nat :| HoldsAt(ls[holder[h]], j) && ls[holder[h]].ws[j].header == h;
      assert HoldsAt(ls'[holder'[h]], j);
    }
    forall u: nat, j: nat | u < |ls'| && HoldsAt(ls'[u], j)
      ensures ls'[u].ws[j].header in holder' && holder'[ls'[u].ws[j].header] == u
    {
      assert HoldsAt(ls[u], j);
    }
  }

  // ---- Waiting ----

  /** t is blocked on a lock that u has. */
  ghost predicate WaitsFor(ls: seq<Locker>, holder: map<Header, nat>, t: nat, u: nat) {
    t < |ls| && u < |ls| && !Done(ls[t]) && ls[t].ws[ls[t].got].header in holder && holder[ls[t].ws[ls[t].got].header] == u
  }

  /** Following a wait leads to a larger wanted address, so no cycle of waits exists. */
  lemma WaitsIncrease(ls: seq<Locker>, holder: map<Header, nat>, t: nat, u: nat)
    requires Valid(ls, holder) && WaitsFor(ls, holder, t, u) && !Done(ls[u])
    ensures ls[t].ws[ls[t].got].header < ls[u].ws[ls[u].got].header
  {
    var h := ls[t].ws[ls[t].got].header;
    var j: nat :| HoldsAt(ls[u], j) && ls[u].ws[j].header == h;
    assert LockerOk(ls[u]);
  }

  ghost predicate WaitPath(ls: seq<Locker>, holder: map<Header, nat>, path: seq<nat>) {
    forall i :: 0 <= i < |path| - 1 ==> WaitsFor(ls, holder, path[i], path[i + 1])
  }

  lemma {:induction false} WaitPathIncreases(ls: seq<Locker>, holder: map<Header, nat>, path: seq<nat>)
    requires Valid(ls, holder) && WaitPath(ls, holder, path) && |path| >= 2
    requires path[|path| - 1] < |ls| && !Done(ls[path[|path| - 1]])
    ensures path[0] < |ls| && !Done(ls[path[0]])
    ensures ls[path[0]].ws[ls[path[0]].got].header <
      ls[path[|path| - 1]].ws[ls[path[|path| - 1]].got].header
  {
    assert WaitsFor(ls, holder, path[0], path[1]);
    if |path| > 2 {
      assert WaitPath(ls, holder, path[1..]) by {
        forall i | 0 <= i < |path[1..]| - 1 ensures WaitsFor(ls, holder, path[1..][i], path[1..][i + 1]) {
          assert WaitsFor(ls, holder, path[i + 1], path[i + 2]);
        }
      }
      WaitPathIncreases(ls, holder, path[1..]);
    }
    WaitsIncrease(ls, holder, path[0], path[1]);
  }

  /** The wait-for relation has no cycle. */
  lemma NoDeadlock(ls: seq<Locker>, holder: map<Header, nat>, path: seq<nat>)
    requires Valid(ls, holder) && WaitPath(ls, holder, path) && |path| >= 2
    ensures path[0] != path[|path| - 1]
  {
    assert WaitsFor(ls, holder, path[0], path[1]);
    if path[0] == path[|path| - 1] {
      WaitPathIncreases(ls, holder, path);
    }
  }

  // ---- Progress ----

  /** The locks and unlocks that are still to come. */
  function Remaining(ls: seq<Locker>): (n: int) {
    if ls == [] then 0
    else var l := ls[|ls| - 1]; Remaining(ls[..|ls| - 1]) + (|l.ws| - l.got) + (|l.ws| - l.freed)
  }

  lemma {:induction false} RemainingStep(ls: seq<Locker>, t: nat)
    requires t < |ls|
    ensures Remaining(ls[t := Stepped(ls[t])]) == Remaining(ls) - 1
  {
    var n := |ls| - 1;
    var ls' := ls[t := Stepped(ls[t])];
    if t < n {
      RemainingStep(ls[..n], t);
      assert ls'[..n] == ls[..n][t := Stepped(ls[..n][t])];
    } else {
      assert ls'[..n] == ls[..n];
    }
  }

  /** Larger than every header of a locker's workset. */
  function Above(ls: seq<Locker>): (bound: nat)
    ensures forall l, x :: l in ls && x in l.ws ==> x.header < bound
  {
    if ls == [] then 0
    else
      var rest, own := Above(ls[..|ls| - 1]), AboveOne(ls[|ls| - 1].ws);
      assert ls == ls[..|ls| - 1] + [ls[|ls| - 1]];
      if rest < own then own else rest
  }

  function AboveOne(ws: seq<Entry>): (bound: nat)
    ensures forall x :: x in ws ==> x.header < bound
  {
    if ws == [] then 0
    else
      var rest, own := AboveOne(ws[..|ws| - 1]), ws[|ws| - 1].header + 1;
      assert ws == ws[..|ws| - 1] + [ws[|ws| - 1]];
      if rest < own then own else rest
  }

  /** Following waits from a transaction that is not finished ends at one that can take a step. */
  lemma {:induction false} FollowWaits(ls: seq<Locker>, holder: map<Header, nat>, t: nat) returns (u: nat)
    requires Valid(ls, holder) && t < |ls| && ls[t].freed < |ls[t].ws|
    ensures CanStep(ls, holder, u)
    decreases if Done(ls[t]) then 0 else Above(ls) - ls[t].ws[ls[t].got].header
  {
    assert LockerOk(ls[t]);
    u := t;
    if !CanStep(ls, holder, t) {
      var h := ls[t].ws[ls[t].got].header;
      assert ls[t] in ls && ls[t].ws[ls[t].got] in ls[t].ws;
      var v := holder[h];
      var j: nat :| HoldsAt(ls[v], j) && ls[v].ws[j].header == h;
      assert LockerOk(ls[v]);
      if !Done(ls[v]) { WaitsIncrease(ls, holder, t, v); }
      u := FollowWaits(ls, holder, v);
    }
  }

  lemma {:induction false} SomeUnfinished(ls: seq<Locker>) returns (t: nat)
    requires Remaining(ls) > 0 && forall t :: 0 <= t < |ls| ==> LockerOk(ls[t])
    ensures t < |ls| && ls[t].freed < |ls[t].ws|
  {
    t := |ls| - 1;
    if ls[t].freed >= |ls[t].ws| {
      assert LockerOk(ls[t]);
      t := SomeUnfinished(ls[..t]);
    }
  }

  /**
   As long as a lock or unlock is still to come, some transaction can do its next one; doing it keeps
   the locks in order and leaves one less, so everybody gets through, in whatever order they go.
   */
  lemma SomeoneProceeds(ls: seq<Locker>, holder: map<Header, nat>) returns (u: nat)
    requires Valid(ls, holder) && Remaining(ls) > 0
    ensures CanStep(ls, holder, u) && Valid(ls[u := Stepped(ls[u])], Held(ls[u], u, holder))
    ensures Remaining(ls[u := Stepped(ls[u])]) == Remaining(ls) - 1
  {
    var t := SomeUnfinished(ls);
    u := FollowWaits(ls, holder, t);
    if Done(ls[u]) { UnlockKeeps(ls, holder, u); } else { LockKeeps(ls, holder, u); }
    RemainingStep(ls, u);
  }
}
