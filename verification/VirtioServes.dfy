/**
 What virtio_disk_rw does for its caller, told from the events of a run: where every
 request stands, and that between its submission and its return the transfer it asked
 for happens once and no other touches its buffer.
 */
module VirtioServes {
  import opened Counting
  import opened Virtio
  import opened VirtioRuns

  /** The requests in flight by the head of their chain, and where they stand. */
  datatype Ledger = Ledger(
    reqs: map<nat, Req>, hand: nat, rung: bool, posted: seq<nat>, busy: set<nat>, done: seq<nat>, seen: set<nat>)

  const NOTHING: Ledger := Ledger(map[], NUM, false, [], {}, [], {})

  function Rest(q: seq<nat>): (r: seq<nat>) {
    if q == [] then [] else q[1..]
  }

  /** What the events say: the device takes requests in the order posted, the handler sees them in the order completed. */
  function Told(es: seq<Event>): (g: Ledger) {
    if es == [] then NOTHING
    else
      var g := Told(es[..|es| - 1]);
      match es[|es| - 1]
      case Submit(h, _, _, req) => g.(reqs := g.reqs[h := req], hand := h, rung := false)
      case Ring => g.(rung := true)
      case Bump => g.(posted := g.posted + [g.hand], hand := NUM)
      case Take => g.(posted := Rest(g.posted), busy := g.busy + if g.posted == [] then {} else {g.posted[0]})
      case Complete(h) => g.(busy := g.busy - {h}, done := g.done + [h])
      case Intr => g.(done := Rest(g.done), seen := g.seen + if g.done == [] then {} else {g.done[0]})
      case Reap(h) => g.(reqs := g.reqs - {h}, seen := g.seen - {h})
  }

  /** Chain h is where the ledger has it. */
  ghost predicate ToldChain(s: Sys, g: Ledger, h: nat) {
    && (h in s.chains <==> h in g.reqs)
    && (h in s.chains ==>
          && s.chains[h].req == g.reqs[h]
          && (s.chains[h].phase == Finished <==> h in g.seen)
          && (s.chains[h].phase == Ringed <==> s.hand == h && g.rung))
  }

  ghost predicate Tells(s: Sys, g: Ledger) {
    && s.hand == g.hand && s.posted == g.posted && s.busy == g.busy && s.done == g.done
    && (forall h {:trigger ToldChain(s, g, h)} :: ToldChain(s, g, h))
    && forall h :: h in g.seen ==> h in g.reqs
  }

  lemma TellMoved(es: seq<Event>, s: Sys, e: Event, s': Sys, h: nat)
    requires Inv(s) && Next(s, s', e) && Tells(s, Told(es)) && (e.Take? || e.Intr? || e.Complete? || e.Reap?)
    ensures ToldChain(s', Told(es + [e]), h)
  {
    assert (es + [e])[..|es|] == es;
    assert ToldChain(s, Told(es), h);
    if h in s.chains { assert Laid(s, h) && Stands(s, h); }
    match e
    case Take => TakeFindsPosted(s);
    case Intr => IntrFindsCompletion(s);
    case Complete(n) => DeviceDoesRequest(s, n);
    case Reap(n) => ReapOwnChain(s, n);
  }

  lemma TellQueued(es: seq<Event>, s: Sys, e: Event, s': Sys, h: nat)
    requires Inv(s) && Next(s, s', e) && Tells(s, Told(es)) && (e.Submit? || e.Ring? || e.Bump?)
    ensures ToldChain(s', Told(es + [e]), h)
  {
    assert (es + [e])[..|es|] == es;
    assert ToldChain(s, Told(es), h);
    if h in s.chains { assert Laid(s, h) && Stands(s, h); }
    if e.Submit? { NewHead(s, e.h); }
  }

  lemma TellChain(es: seq<Event>, s: Sys, e: Event, s': Sys, h: nat)
    requires Inv(s) && Next(s, s', e) && Tells(s, Told(es))
    ensures ToldChain(s', Told(es + [e]), h)
  {
    if e.Submit? || e.Ring? || e.Bump? { TellQueued(es, s, e, s', h); } else { TellMoved(es, s, e, s', h); }
  }

  lemma TellRest(es: seq<Event>, s: Sys, e: Event, s': Sys)
    requires Inv(s) && Next(s, s', e) && Tells(s, Told(es))
    ensures var g := Told(es + [e]);
      && s'.hand == g.hand && s'.posted == g.posted && s'.busy == g.busy && s'.done == g.done
      && forall h :: h in g.seen ==> h in g.reqs
  {
    assert (es + [e])[..|es|] == es;
    match e
    case Take => TakeFindsPosted(s);
    case Intr =>
      IntrFindsCompletion(s);
      assert ToldChain(s, Told(es), s.done[0]);
    case _ =>
  }

  lemma TellNext(es: seq<Event>, s: Sys, e: Event, s': Sys)
    requires Inv(s) && Next(s, s', e) && Tells(s, Told(es))
    ensures Tells(s', Told(es + [e]))
  {
    TellRest(es, s, e, s');
    forall h ensures ToldChain(s', Told(es + [e]), h) {
      TellChain(es, s, e, s', h);
    }
  }

  lemma {:induction false} ToldInRun(trace: seq<Sys>, events: seq<Event>, n: nat)
    requires Run(trace, events) && n < |trace|
    ensures Tells(trace[n], Told(events[..n]))
  {
    if n > 0 {
      RunKeepsInv(trace, events, n - 1);
      ToldInRun(trace, events, n - 1);
      assert Follows(trace, events, n - 1);
      TellNext(events[..n - 1], trace[n - 1], events[n - 1], trace[n]);
      assert events[..n - 1] + [events[n - 1]] == events[..n];
    }
  }

  /** In every run a buffer is marked as with the disk from its submission until the handler has seen its completion. */
  lemma BufferWaits(trace: seq<Sys>, events: seq<Event>, n: nat, h: nat)
    requires Run(trace, events) && n < |trace| && h in Told(events[..n]).reqs
    ensures Told(events[..n]).reqs[h].buf in trace[n].onDisk <==> h !in Told(events[..n]).seen
  {
    RunKeepsInv(trace, events, n);
    ToldInRun(trace, events, n);
    assert ToldChain(trace[n], Told(events[..n]), h) && Laid(trace[n], h) && Stands(trace[n], h);
  }

  /**
   In every run, the completion of a request does the transfer that was submitted, in its direction, and
   nothing else; no other step touches a buffer or a block; and only a request that the handler has seen
   completed returns.
   */
  lemma TransferExactly(trace: seq<Sys>, events: seq<Event>, n: nat)
    requires Run(trace, events) && n < |events|
    ensures !events[n].Complete? ==> trace[n + 1].data == trace[n].data && trace[n + 1].disk == trace[n].disk
    ensures events[n].Complete? ==>
      && events[n].h in Told(events[..n]).reqs
      && var q, s, s' := Told(events[..n]).reqs[events[n].h], trace[n], trace[n + 1];
      && q.buf in s.data && q.block in s.disk
      && (q.write ==> s'.disk == s.disk[q.block := s.data[q.buf]] && s'.data == s.data)
      && (!q.write ==> s'.data == s.data[q.buf := s.disk[q.block]] && s'.disk == s.disk)
    ensures events[n].Reap? ==> events[n].h in Told(events[..n]).seen
  {
    RunKeepsInv(trace, events, n);
    ToldInRun(trace, events, n);
    assert Follows(trace, events, n);
    match events[n]
    case Complete(h) =>
      DeviceDoesRequest(trace[n], h);
      assert ToldChain(trace[n], Told(events[..n]), h);
    case Reap(h) =>
      ReapOwnChain(trace[n], h);
      assert ToldChain(trace[n], Told(events[..n]), h);
    case _ =>
  }

  // ---- One request from submission to return ----

  /** Request h, submitted at m, has been completed at k and at no other event before n; or not at all yet. */
  ghost predicate DoneOnce(events: seq<Event>, h: nat, m: nat, n: nat, k: nat) {
    m < k < n <= |events| && events[k] == Complete(h) && forall x :: m < x < n && x != k ==> events[x] != Complete(h)
  }

  /** Where the request submitted at m stands at n, what its buffer holds, and where its transfer was. */
  ghost predicate Tracked(trace: seq<Sys>, events: seq<Event>, h: nat, m: nat, n: nat, k: nat)
    requires m < n < |trace| == |events| + 1
  {
    && events[m].Submit? && events[m].h == h
    && var q, s := events[m].req, trace[n];
    && h in s.chains && s.chains[h].req == q && q.buf in trace[m].data && q.buf in s.data
    && if s.chains[h].phase == Done || s.chains[h].phase == Finished
       then && DoneOnce(events, h, m, n, k) && q.block in trace[k].disk
            && (q.write ==> trace[k + 1].disk == trace[k].disk[q.block := trace[m].data[q.buf]] && trace[k + 1].data == trace[k].data)
            && (!q.write ==> trace[k + 1].data == trace[k].data[q.buf := trace[k].disk[q.block]] && trace[k + 1].disk == trace[k].disk)
            && (!q.write ==> s.data[q.buf] == trace[k].disk[q.block])
       else s.data[q.buf] == trace[m].data[q.buf] && forall x :: m < x < n ==> events[x] != Complete(h)
  }

  lemma TrackStart(trace: seq<Sys>, events: seq<Event>, h: nat, m: nat)
    requires Run(trace, events) && m < |events| && events[m].Submit? && events[m].h == h
    ensures Tracked(trace, events, h, m, m + 1, 0)
  {
    RunKeepsInv(trace, events, m);
    assert Follows(trace, events, m);
  }

  /** A step of another chain leaves this chain and its buffer alone. */
  lemma OtherChain(s: Sys, s': Sys, e: Event, h: nat)
    requires Inv(s) && Next(s, s', e) && h in s.chains && e != Complete(h) && e != Reap(h)
    ensures h in s'.chains && s'.chains[h].req == s.chains[h].req
    ensures s.chains[h].req.buf in s.data && s.chains[h].req.buf in s'.data
    ensures s'.data[s.chains[h].req.buf] == s.data[s.chains[h].req.buf]
    ensures s'.chains[h].phase == Done || s'.chains[h].phase == Finished <==> s.chains[h].phase == Done || s.chains[h].phase == Finished
  {
    assert Laid(s, h) && Stands(s, h);
    match e
    case Submit(n, _, _, _) => NewHead(s, n);
    case Take => TakeFindsPosted(s);
    case Intr => IntrFindsCompletion(s);
    case Complete(n) => DeviceDoesRequest(s, n);
    case _ =>
  }

  lemma TrackOther(trace: seq<Sys>, events: seq<Event>, h: nat, m: nat, n: nat, k: nat)
    requires Run(trace, events) && m < n < |events| && Tracked(trace, events, h, m, n, k)
    requires events[n] != Complete(h) && events[n] != Reap(h)
    ensures Tracked(trace, events, h, m, n + 1, k)
  {
    RunKeepsInv(trace, events, n);
    assert Follows(trace, events, n);
    OtherChain(trace[n], trace[n + 1], events[n], h);
  }

  lemma TrackComplete(trace: seq<Sys>, events: seq<Event>, h: nat, m: nat, n: nat, k: nat)
    requires Run(trace, events) && m < n < |events| && Tracked(trace, events, h, m, n, k) && events[n] == Complete(h)
    ensures Tracked(trace, events, h, m, n + 1, n)
  {
    RunKeepsInv(trace, events, n);
    assert Follows(trace, events, n);
    DeviceDoesRequest(trace[n], h);
  }

  lemma {:induction false} Track(trace: seq<Sys>, events: seq<Event>, h: nat, m: nat, n: nat) returns (k: nat)
    requires Run(trace, events) && m < n < |trace| && events[m].Submit? && events[m].h == h
    requires forall x :: m < x < n ==> events[x] != Reap(h)
    ensures Tracked(trace, events, h, m, n, k)
  {
    if n == m + 1 {
      TrackStart(trace, events, h, m);
      k := 0;
    } else {
      k := Track(trace, events, h, m, n - 1);
      if events[n - 1] == Complete(h) {
        TrackComplete(trace, events, h, m, n - 1, k);
        k := n - 1;
      } else {
        TrackOther(trace, events, h, m, n - 1, k);
      }
    }
  }

  /**
   virtio_disk_rw: a request submitted at m that returns at n has been carried out exactly once in between,
   at k.  A write has put what the buffer held at its submission on the block and changed nothing else; a
   read has changed nothing but the buffer, which at the return holds what the block held at k.
   */
  lemma RequestServed(trace: seq<Sys>, events: seq<Event>, m: nat, n: nat) returns (k: nat)
    requires Run(trace, events) && m < n < |events| && events[m].Submit? && events[n] == Reap(events[m].h)
    requires forall x :: m < x < n ==> events[x] != events[n]
    ensures DoneOnce(events, events[m].h, m, n, k)
    ensures var q := events[m].req;
      && q.buf in trace[m].data && q.buf in trace[n].data && q.block in trace[k].disk
      && (q.write ==> trace[k + 1].disk == trace[k].disk[q.block := trace[m].data[q.buf]] && trace[k + 1].data == trace[k].data)
      && (!q.write ==> trace[k + 1].data == trace[k].data[q.buf := trace[k].disk[q.block]] && trace[k + 1].disk == trace[k].disk)
      && (!q.write ==> trace[n].data[q.buf] == trace[k].disk[q.block])
  {
    k := Track(trace, events, events[m].h, m, n);
    RunKeepsInv(trace, events, n);
    assert Follows(trace, events, n);
    ReapOwnChain(trace[n], events[m].h);
  }
}
