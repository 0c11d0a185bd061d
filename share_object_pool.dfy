/**
  The shared object pool of the sharding engine: a fixed set of objects (for
  instance one database context per shard connection) handed out to callers in
  the order they asked, with a FIFO queue of free objects (`Stocks`) and a FIFO
  queue of waiters (`Waitings`).

  Every locked section of the pool is one atomic step here. A waiter is the
  TaskCompletionSource a get creates; it is identified by a ticket, and the
  state of every completion source the pool has created is kept in
  `completions`. The ghost multiset `lent` holds the objects that were handed
  out and not yet returned.

  The pure functions `AfterTryEmit`, `AfterGet`, `AfterReturn` and
  `AfterDispose` give the state after each operation; the class
  `ShareObjectPool` is proved to follow them, and the lemmas prove the pool's
  invariants about them.
*/
module SharePool {
  import opened Wrappers

  /** Identity of one waiter (the completion source a get enqueues). */
  type Ticket = nat

  /** State of a waiter's completion source. `Faulted` is the ObjectDisposedException. */
  datatype Completion<T> = Pending | Resolved(obj: T) | Faulted

  /** The exception a get on a disposed pool throws. */
  datatype PoolError = ObjectDisposed

  datatype PoolState<T> = PoolState(
    all: seq<T>,                               // All: the objects the pool was built with
    stocks: seq<T>,                            // Stocks: free objects, head first
    waitings: seq<Ticket>,                     // Waitings: pending waiters, head first
    completions: map<Ticket, Completion<T>>,   // every completion source created so far
    nextTicket: Ticket,                        // the ticket the next get will use
    disposed: bool,                            // _disposed
    lent: multiset<T>,                         // handed out, not yet returned
    disposableObjects: bool,                   // T is IDisposable
    objectsDisposed: bool)                     // Dispose has disposed the objects of All

  /** Size is the number of objects the pool was built with. */
  function Size<T>(p: PoolState<T>): nat {
    |p.all|
  }

  /** Conservation: the free objects and the handed-out objects are exactly the pool's objects. */
  ghost predicate Conserved<T>(p: PoolState<T>) {
    multiset(p.stocks) + p.lent == multiset(p.all)
  }

  /** Tickets are allocated in order, every queued waiter has a distinct ticket, and
      while the pool is open every queued waiter is still pending. */
  ghost predicate TicketsWellFormed<T>(p: PoolState<T>) {
    && (forall t :: t in p.completions ==> t < p.nextTicket)
    && (forall i :: 0 <= i < |p.waitings| ==> p.waitings[i] in p.completions)
    && (forall i, j :: 0 <= i < j < |p.waitings| ==> p.waitings[i] != p.waitings[j])
    && (!p.disposed ==> forall i :: 0 <= i < |p.waitings| ==> p.completions[p.waitings[i]].Pending?)
  }

  /** While the pool is open there is never a free object and a waiter at the same time. */
  ghost predicate Exclusive<T>(p: PoolState<T>) {
    !p.disposed ==> p.stocks == [] || p.waitings == []
  }

  ghost predicate PoolValid<T>(p: PoolState<T>) {
    Conserved(p) && TicketsWellFormed(p) && Exclusive(p)
  }

  /** The state the constructor builds: every object is free, nobody waits. */
  function Init<T>(objects: seq<T>, disposableObjects: bool): (p: PoolState<T>)
    ensures PoolValid(p) && Size(p) == |objects|
    ensures p.stocks == objects && p.waitings == [] && p.lent == multiset{} && !p.disposed
  {
    PoolState(objects, objects, [], map[], 0, false, multiset{}, disposableObjects, false)
  }

  /** TrySetResult / TrySetException: only a pending completion source changes. */
  function TrySet<T>(c: map<Ticket, Completion<T>>, t: Ticket, v: Completion<T>): (r: map<Ticket, Completion<T>>)
    ensures r.Keys == c.Keys
    ensures t in c && c[t].Pending? ==> r[t] == v
    ensures forall u :: u in c && (u != t || !c[u].Pending?) ==> r[u] == c[u]
  {
    if t in c && c[t].Pending? then c[t := v] else c
  }

  /** TryEmit: pair the oldest free object with the oldest waiter, if the pool is open
      and both queues are non-empty. */
  function AfterTryEmit<T>(p: PoolState<T>): PoolState<T> {
    if p.disposed || !(|p.stocks| > 0 && |p.waitings| > 0) then p
    else
      p.(stocks := p.stocks[1..],
         waitings := p.waitings[1..],
         completions := TrySet(p.completions, p.waitings[0], Resolved(p.stocks[0])),
         lent := p.lent + multiset{p.stocks[0]})
  }

  /** The locked section of GetAsync: a disposed pool throws; otherwise a new waiter is
      enqueued and TryEmit runs. The result is the waiter's ticket. */
  function AfterGet<T>(p: PoolState<T>): (PoolState<T>, Result<Ticket, PoolError>) {
    if p.disposed then (p, Err(ObjectDisposed))
    else
      var t := p.nextTicket;
      var q := p.(waitings := p.waitings + [t],
                  completions := p.completions[t := Pending],
                  nextTicket := t + 1);
      (AfterTryEmit(q), Ok(t))
  }

  /** Return: the object goes back to the end of Stocks, then TryEmit runs. */
  function AfterReturn<T>(p: PoolState<T>, obj: T): PoolState<T> {
    AfterTryEmit(p.(stocks := p.stocks + [obj], lent := p.lent - multiset{obj}))
  }

  /** The completions after failing the first `n` queued waiters, in queue order. */
  function FailWaiters<T>(c: map<Ticket, Completion<T>>, ws: seq<Ticket>, n: nat): map<Ticket, Completion<T>>
    requires n <= |ws|
  {
    if n == 0 then c else TrySet(FailWaiters(c, ws, n - 1), ws[n - 1], Faulted)
  }

  /** Dispose: a second call does nothing; the first disposes the objects (when they are
      disposable), fails every queued waiter and marks the pool disposed. */
  function AfterDispose<T>(p: PoolState<T>): PoolState<T> {
    if p.disposed then p
    else
      p.(completions := FailWaiters(p.completions, p.waitings, |p.waitings|),
         disposed := true,
         objectsDisposed := p.disposableObjects)
  }

  lemma SeqMultisetSplit<T>(s: seq<T>)
    requires |s| > 0
    ensures multiset(s) == multiset{s[0]} + multiset(s[1..])
  {
    assert s == [s[0]] + s[1..];
  }

  /** TryEmit keeps conservation and ticket well-formedness, and moves at most one pair. */
  lemma TryEmitKeepsInvariants<T>(p: PoolState<T>)
    requires Conserved(p) && TicketsWellFormed(p)
    ensures var q := AfterTryEmit(p);
      && Conserved(q) && TicketsWellFormed(q)
      && q.all == p.all && q.disposed == p.disposed && q.nextTicket == p.nextTicket
      && |q.stocks| >= |p.stocks| - 1 && |q.waitings| >= |p.waitings| - 1
  {
    if !p.disposed && |p.stocks| > 0 && |p.waitings| > 0 {
      SeqMultisetSplit(p.stocks);
      var q := AfterTryEmit(p);
      forall i, j | 0 <= i < j < |q.waitings| ensures q.waitings[i] != q.waitings[j] {
        assert q.waitings[i] == p.waitings[i + 1] && q.waitings[j] == p.waitings[j + 1];
      }
      forall i | 0 <= i < |q.waitings| ensures q.completions[q.waitings[i]].Pending? {
        assert q.waitings[i] == p.waitings[i + 1];
        assert p.waitings[i + 1] != p.waitings[0];
      }
    }
  }

  /** TryEmit is FIFO on both queues: the oldest waiter receives the oldest free object,
      and no other completion source changes. */
  lemma TryEmitPairsHeads<T>(p: PoolState<T>)
    requires TicketsWellFormed(p) && !p.disposed && |p.stocks| > 0 && |p.waitings| > 0
    ensures var q := AfterTryEmit(p);
      && q.completions[p.waitings[0]] == Resolved(p.stocks[0])
      && q.stocks == p.stocks[1..] && q.waitings == p.waitings[1..]
      && (forall t :: t in p.completions && t != p.waitings[0] ==> q.completions[t] == p.completions[t])
  {
  }

  /** TryEmit changes nothing on a disposed pool or when a queue is empty. */
  lemma TryEmitIdle<T>(p: PoolState<T>)
    requires p.disposed || p.stocks == [] || p.waitings == []
    ensures AfterTryEmit(p) == p
  {
  }

  /** A get keeps the pool valid; on a disposed pool it throws and enqueues nothing;
      on an open pool the new waiter is served at once exactly when an object is free. */
  lemma GetKeepsValid<T>(p: PoolState<T>)
    requires PoolValid(p)
    ensures PoolValid(AfterGet(p).0)
    ensures p.disposed ==> AfterGet(p) == (p, Err(ObjectDisposed))
    ensures !p.disposed ==>
      var (q, r) := AfterGet(p);
      && r == Ok(p.nextTicket)
      && q.all == p.all
      && (p.stocks != [] ==> q.completions[p.nextTicket] == Resolved(p.stocks[0]) && q.stocks == p.stocks[1..])
      && (p.stocks == [] ==> q.completions[p.nextTicket] == Pending && q.waitings == p.waitings + [p.nextTicket])
  {
    if !p.disposed {
      var t := p.nextTicket;
      var q := p.(waitings := p.waitings + [t],
                  completions := p.completions[t := Pending],
                  nextTicket := t + 1);
      forall i, j | 0 <= i < j < |q.waitings| ensures q.waitings[i] != q.waitings[j] {
        if j == |q.waitings| - 1 {
          assert q.waitings[i] == p.waitings[i] && p.waitings[i] in p.completions;
        }
      }
      assert TicketsWellFormed(q);
      TryEmitKeepsInvariants(q);
    }
  }

  /** Returning a handed-out object keeps the pool valid, and the object is either
      handed straight to the oldest waiter or appended to Stocks. */
  lemma ReturnKeepsValid<T>(p: PoolState<T>, obj: T)
    requires PoolValid(p) && obj in p.lent
    ensures var q := AfterReturn(p, obj);
      && PoolValid(q) && q.all == p.all
      && (!p.disposed && p.waitings != [] ==>
            q.completions[p.waitings[0]] == Resolved(obj) && q.waitings == p.waitings[1..] && q.stocks == p.stocks)
      && (p.disposed || p.waitings == [] ==> q.stocks == p.stocks + [obj] && q.waitings == p.waitings)
  {
    var q := p.(stocks := p.stocks + [obj], lent := p.lent - multiset{obj});
    assert multiset(q.stocks) == multiset(p.stocks) + multiset{obj};
    assert Conserved(q);
    TryEmitKeepsInvariants(q);
    if !p.disposed && p.waitings != [] {
      assert p.stocks == [];
      assert q.stocks == [obj];
    }
  }

  lemma FailWaitersEffect<T>(c: map<Ticket, Completion<T>>, ws: seq<Ticket>, n: nat)
    requires n <= |ws|
    requires forall i :: 0 <= i < |ws| ==> ws[i] in c
    ensures FailWaiters(c, ws, n).Keys == c.Keys
    ensures forall i :: 0 <= i < n && c[ws[i]].Pending? ==> FailWaiters(c, ws, n)[ws[i]] == Faulted
    ensures forall t :: t in c && t !in ws[..n] ==> FailWaiters(c, ws, n)[t] == c[t]
  {
    if n > 0 {
      FailWaitersEffect(c, ws, n - 1);
      var prev := FailWaiters(c, ws, n - 1);
      forall i | 0 <= i < n && c[ws[i]].Pending? ensures FailWaiters(c, ws, n)[ws[i]] == Faulted {
        if i < n - 1 && ws[i] != ws[n - 1] {
          assert prev[ws[i]] == Faulted;
        } else if ws[i] == ws[n - 1] && ws[n - 1] !in ws[..n - 1] {
          assert prev[ws[n - 1]] == c[ws[n - 1]];
        }
      }
      forall t | t in c && t !in ws[..n] ensures FailWaiters(c, ws, n)[t] == c[t] {
        assert ws[..n] == ws[..n - 1] + [ws[n - 1]];
        assert t !in ws[..n - 1];
      }
    }
  }

  /** The first Dispose fails every pending waiter with ObjectDisposedException, leaves
      every other completion source alone and marks the pool disposed; the pool stays valid. */
  lemma DisposeFailsEveryWaiter<T>(p: PoolState<T>)
    requires PoolValid(p) && !p.disposed
    ensures var q := AfterDispose(p);
      && q.disposed && PoolValid(q) && q.completions.Keys == p.completions.Keys
      && (forall w :: w in p.waitings ==> q.completions[w] == Faulted)
      && (forall t :: t in p.completions && t !in p.waitings ==> q.completions[t] == p.completions[t])
      && q.stocks == p.stocks && q.lent == p.lent
  {
    FailWaitersEffect(p.completions, p.waitings, |p.waitings|);
    assert p.waitings[..|p.waitings|] == p.waitings;
  }

  /** Dispose is idempotent. */
  lemma DisposeIdempotent<T>(p: PoolState<T>)
    ensures AfterDispose(AfterDispose(p)) == AfterDispose(p)
    ensures AfterDispose(p).disposed
  {
  }

  /** Conservation as counts: free plus handed out is Size, so at most Size objects
      are ever checked out. */
  lemma CheckedOutWithinSize<T>(p: PoolState<T>)
    requires Conserved(p)
    ensures |p.stocks| + |p.lent| == Size(p)
    ensures |p.lent| <= Size(p)
  {
    calc {
      |p.stocks| + |p.lent|;
      |multiset(p.stocks)| + |p.lent|;
      |multiset(p.stocks) + p.lent|;
      |multiset(p.all)|;
      |p.all|;
    }
  }

  /** Returning the objects `objs` one after another. */
  function AfterReturns<T>(p: PoolState<T>, objs: seq<T>): PoolState<T>
    decreases |objs|
  {
    if objs == [] then p else AfterReturns(AfterReturn(p, objs[0]), objs[1..])
  }

  /** FIFO service: when no object is free and k objects are returned to an open pool
      with at least k waiters, the i-th returned object goes to the i-th oldest waiter. */
  lemma {:induction false} ReturnsServeWaitersInOrder<T>(p: PoolState<T>, objs: seq<T>)
    requires PoolValid(p) && !p.disposed && p.stocks == []
    requires |objs| <= |p.waitings| && multiset(objs) <= p.lent
    ensures var q := AfterReturns(p, objs);
      && PoolValid(q) && q.stocks == [] && q.waitings == p.waitings[|objs|..]
      && (forall i :: 0 <= i < |objs| ==> p.waitings[i] in q.completions && q.completions[p.waitings[i]] == Resolved(objs[i]))
    decreases |objs|
  {
    if objs != [] {
      SeqMultisetSplit(objs);
      ReturnKeepsValid(p, objs[0]);
      var p1 := AfterReturn(p, objs[0]);
      assert multiset(objs[1..]) <= p1.lent;
      ReturnsServeWaitersInOrder(p1, objs[1..]);
      var q := AfterReturns(p1, objs[1..]);
      assert p1.waitings[|objs| - 1..] == p.waitings[|objs|..];
      forall i | 0 <= i < |objs| ensures p.waitings[i] in q.completions && q.completions[p.waitings[i]] == Resolved(objs[i]) {
        if i > 0 {
          assert p.waitings[i] == p1.waitings[i - 1];
        } else {
          AfterReturnsKeepsServed(p1, objs[1..], p.waitings[0]);
        }
      }
    }
  }

  /** A waiter that has been served (and so left the queue) keeps its result. */
  lemma {:induction false} AfterReturnsKeepsServed<T>(p: PoolState<T>, objs: seq<T>, t: Ticket)
    requires TicketsWellFormed(p) && t in p.completions && !p.completions[t].Pending?
    ensures t in AfterReturns(p, objs).completions
    ensures AfterReturns(p, objs).completions[t] == p.completions[t]
    ensures TicketsWellFormed(AfterReturns(p, objs))
    decreases |objs|
  {
    if objs != [] {
      var p0 := p.(stocks := p.stocks + [objs[0]], lent := p.lent - multiset{objs[0]});
      assert TicketsWellFormed(p0);
      TryEmitWellFormed(p0);
      AfterReturnsKeepsServed(AfterReturn(p, objs[0]), objs[1..], t);
    }
  }

  lemma TryEmitWellFormed<T>(p: PoolState<T>)
    requires TicketsWellFormed(p)
    ensures TicketsWellFormed(AfterTryEmit(p))
    ensures forall t :: t in p.completions && !p.completions[t].Pending? ==>
      t in AfterTryEmit(p).completions && AfterTryEmit(p).completions[t] == p.completions[t]
  {
    if !p.disposed && |p.stocks| > 0 && |p.waitings| > 0 {
      var q := AfterTryEmit(p);
      forall i, j | 0 <= i < j < |q.waitings| ensures q.waitings[i] != q.waitings[j] {
        assert q.waitings[i] == p.waitings[i + 1] && q.waitings[j] == p.waitings[j + 1];
      }
      forall i | 0 <= i < |q.waitings| ensures q.completions[q.waitings[i]].Pending? {
        assert q.waitings[i] == p.waitings[i + 1];
        assert p.waitings[i + 1] != p.waitings[0];
      }
    }
  }

  /** One atomic operation on the pool. */
  datatype PoolOp<T> = GetOp | ReturnOp(obj: T) | DisposeOp

  /** Every Return returns an object that is handed out at that moment (PoolItem owns it). */
  ghost predicate WellBehaved<T>(p: PoolState<T>, ops: seq<PoolOp<T>>)
    decreases |ops|
  {
    ops == [] ||
    (match ops[0]
     case GetOp => WellBehaved(AfterGet(p).0, ops[1..])
     case ReturnOp(obj) => obj in p.lent && WellBehaved(AfterReturn(p, obj), ops[1..])
     case DisposeOp => WellBehaved(AfterDispose(p), ops[1..]))
  }

  function Run<T>(p: PoolState<T>, ops: seq<PoolOp<T>>): PoolState<T>
    decreases |ops|
  {
    if ops == [] then p
    else
      match ops[0]
      case GetOp => Run(AfterGet(p).0, ops[1..])
      case ReturnOp(obj) => Run(AfterReturn(p, obj), ops[1..])
      case DisposeOp => Run(AfterDispose(p), ops[1..])
  }

  /** Over any run of gets, returns of handed-out objects and disposals, the pool stays
      valid: Size never changes, free plus handed out is always Size, and an open pool
      never has a free object and a waiter at once. */
  lemma {:induction false} RunKeepsValid<T>(p: PoolState<T>, ops: seq<PoolOp<T>>)
    requires PoolValid(p) && WellBehaved(p, ops)
    ensures var q := Run(p, ops);
      PoolValid(q) && Size(q) == Size(p) && |q.stocks| + |q.lent| == Size(p)
    decreases |ops|
  {
    if ops == [] {
      CheckedOutWithinSize(p);
    } else {
      match ops[0]
      case GetOp =>
        GetKeepsValid(p);
        RunKeepsValid(AfterGet(p).0, ops[1..]);
      case ReturnOp(obj) =>
        ReturnKeepsValid(p, obj);
        RunKeepsValid(AfterReturn(p, obj), ops[1..]);
      case DisposeOp =>
        if !p.disposed {
          DisposeFailsEveryWaiter(p);
        }
        RunKeepsValid(AfterDispose(p), ops[1..]);
    }
  }

  /** The pool object. Its state is exactly a PoolState, and every method follows the
      pure function for its operation. */
  class ShareObjectPool<T(==)> {
    const all: seq<T>
    const disposableObjects: bool
    var stocks: seq<T>
    var waitings: seq<Ticket>
    var completions: map<Ticket, Completion<T>>
    var nextTicket: Ticket
    var disposed: bool
    var objectsDisposed: bool
    ghost var lent: multiset<T>

    ghost function State(): PoolState<T>
      reads this
    {
      PoolState(all, stocks, waitings, completions, nextTicket, disposed, lent, disposableObjects, objectsDisposed)
    }

    ghost predicate Valid()
      reads this
    {
      PoolValid(State())
    }

    function Size(): nat {
      |all|
    }

    constructor (objects: seq<T>, disposableObjects: bool)
      ensures State() == Init(objects, disposableObjects) && Valid()
      ensures Size() == |objects|
    {
      all := objects;
      this.disposableObjects := disposableObjects;
      stocks := objects;
      waitings := [];
      completions := map[];
      nextTicket := 0;
      disposed := false;
      objectsDisposed := false;
      lent := multiset{};
    }

    method TryEmit()
      modifies this
      ensures State() == AfterTryEmit(old(State()))
    {
      if disposed {
        return;
      }
      if !(|stocks| > 0 && |waitings| > 0) {
        return;
      }
      var obj := stocks[0];
      stocks := stocks[1..];
      var tcs := waitings[0];
      waitings := waitings[1..];
      completions := TrySet(completions, tcs, Resolved(obj));
      lent := lent + multiset{obj};
    }

    /** The locked section of GetAsync (and of Get, which blocks on it). The result is
        the ticket of the enqueued waiter, or the error thrown on a disposed pool. */
    method GetAsync() returns (r: Result<Ticket, PoolError>)
      requires Valid()
      modifies this
      ensures Valid()
      ensures (State(), r) == AfterGet(old(State()))
    {
      GetKeepsValid(State());
      if disposed {
        return Err(ObjectDisposed);
      }
      var tcs := nextTicket;
      nextTicket := nextTicket + 1;
      completions := completions[tcs := Pending];
      waitings := waitings + [tcs];
      TryEmit();
      r := Ok(tcs);
    }

    /** The continuation after `await tcs.Task`: it runs once the waiter's completion
        source is settled, and wraps the object in a PoolItem or rethrows. */
    method Resume(tcs: Ticket) returns (r: Result<PoolItem<T>, PoolError>)
      requires tcs in completions && !completions[tcs].Pending?
      ensures completions[tcs].Faulted? ==> r == Err(ObjectDisposed)
      ensures completions[tcs].Resolved? ==>
        r.Ok? && fresh(r.value) && r.value.resource == completions[tcs].obj
        && r.value.pool == this && !r.value.disposed
    {
      match completions[tcs]
      case Faulted =>
        r := Err(ObjectDisposed);
      case Resolved(obj) =>
        var item := new PoolItem(obj, this);
        r := Ok(item);
    }

    /** Return is called only by PoolItem.Dispose, with the object the item holds. */
    method Return(obj: T)
      requires Valid() && obj in lent
      modifies this
      ensures Valid()
      ensures State() == AfterReturn(old(State()), obj)
    {
      ghost var p := State();
      ReturnKeepsValid(p, obj);
      stocks := stocks + [obj];
      lent := lent - multiset{obj};
      assert State() == p.(stocks := p.stocks + [obj], lent := p.lent - multiset{obj});
      TryEmit();
    }

    method Dispose()
      requires Valid()
      modifies this
      ensures Valid()
      ensures State() == AfterDispose(old(State()))
    {
      if disposed {
        return;
      }
      DisposeFailsEveryWaiter(State());
      // The objects of All are disposed when they are disposable; only that fact is kept.
      objectsDisposed := disposableObjects;
      var c := completions;
      var i := 0;
      while i < |waitings|
        invariant 0 <= i <= |waitings|
        invariant c == FailWaiters(completions, waitings, i)
      {
        c := TrySet(c, waitings[i], Faulted);
        i := i + 1;
      }
      completions := c;
      disposed := true;
    }
  }

  /** The handle a caller holds on one pooled object. */
  class PoolItem<T(==)> {
    const resource: T
    const pool: ShareObjectPool<T>
    var disposed: bool

    constructor (resource: T, pool: ShareObjectPool<T>)
      ensures this.resource == resource && this.pool == pool && !disposed
    {
      this.resource := resource;
      this.pool := pool;
      disposed := false;
    }

    /** Returns the object to the pool the first time; later calls change nothing. */
    method Dispose()
      requires pool.Valid()
      requires !disposed ==> resource in pool.lent
      modifies this, pool
      ensures pool.Valid() && disposed
      ensures old(disposed) ==> pool.State() == old(pool.State())
      ensures !old(disposed) ==> pool.State() == AfterReturn(old(pool.State()), resource)
    {
      if disposed {
        return;
      }
      pool.Return(resource);
      disposed := true;
    }
  }
}
