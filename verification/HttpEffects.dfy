/** What each stretch of a request does to the pool, and the retry rule, both stated on the pool itself. */
module HttpEffects {
  import opened Wrappers
  import opened ConnectionPools
  import opened HttpRequests

  // ---------------------------------------------------------------------------------------------
  // The pool before and after

  function Without(order: seq<nat>, id: nat): seq<nat> {
    if order == [] then [] else (if order[0] == id then [] else [order[0]]) + Without(order[1..], id)
  }

  /** The slot is destroyed; the others keep their state and their order. */
  function Dropped(p: Pool, id: nat): Pool {
    Pool(Without(p.order, id), p.conns - {id})
  }

  /** The slot changes to c where it is; the others keep their state and their order. */
  function Changed(p: Pool, id: nat, c: Conn): Pool {
    Pool(p.order, p.conns[id := c])
  }

  function Appended(p: Pool, id: nat): Pool {
    Pool(p.order + [id], p.conns[id := Conn(true, false)])
  }

  ghost predicate AllInUse(p: Pool) {
    forall id :: id in p.conns ==> p.conns[id].inUse
  }

  /** The first slot in order that is not in use. */
  ghost predicate IsFirstFree(p: Pool, id: nat) {
    && id in p.conns && !p.conns[id].inUse
    && exists i :: 0 <= i < |p.order| && p.order[i] == id
         && forall j :: 0 <= j < i ==> p.order[j] in p.conns && p.conns[p.order[j]].inUse
  }

  /** The request takes the first free slot, and only if there is none connects a new one, at the end. */
  ghost predicate Acquires(p: Pool, q: Pool, newId: nat, pc: Pc) {
    if AllInUse(p) then pc.Connecting? && pc.slot == newId && newId !in p.conns && q == Appended(p, newId)
    else pc.Exchanging? && IsFirstFree(p, pc.slot) && q == Changed(p, pc.slot, Conn(true, true))
  }

  lemma {:induction false} WithoutAbsent(order: seq<nat>, id: nat)
    requires id !in order
    ensures Without(order, id) == order
  {
    if order != [] { WithoutAbsent(order[1..], id); }
  }

  lemma {:induction false} ErasedIsWithout(order: seq<nat>, i: nat)
    requires i < |order| && forall j :: 0 <= j < |order| && j != i ==> order[j] != order[i]
    ensures order[..i] + order[i + 1..] == Without(order, order[i])
  {
    var tail := order[1..];
    if i == 0 {
      WithoutAbsent(tail, order[0]);
      assert order[..0] + tail == tail;
    } else {
      ErasedIsWithout(tail, i - 1);
      assert order[..i] + order[i + 1..] == [order[0]] + (tail[..i - 1] + tail[i..]);
    }
  }

  lemma ReleaseDrops(p: Pool, size: nat, id: nat, keep: bool)
    requires WellFormed(p) && id in p.conns
    ensures Release(p, size, id, keep)
         == if keep && |p.order| <= size then Changed(p, id, p.conns[id].(inUse := false)) else Dropped(p, id)
  {
    assert p.order[0..] == p.order;
    ErasedIsWithout(p.order, Position(p.order, id, 0).value);
  }

  lemma AcquireEffect(s: State, r: nat, req: Request, grows: bool)
    requires LeaseInv(s)
    ensures var s' := BeginAcquire(s, r, req, grows); Acquires(s.pool, s'.pool, s.nextId, s'.requests[r].pc)
  {
    NoIdleUnconnected(s, r, req, grows);
    match FirstIdle(s.pool, true, 0)
    case Some(i) =>
      var id := s.pool.order[i];
      assert !s.pool.conns[id].inUse && s.pool.conns[id] == Conn(false, true);
      forall j | 0 <= j < i ensures s.pool.order[j] in s.pool.conns && s.pool.conns[s.pool.order[j]].inUse {
        assert !IsIdle(s.pool, s.pool.order[j], true);
      }
      assert IsFirstFree(s.pool, id);
    case None =>
      forall id | id in s.pool.conns ensures s.pool.conns[id].inUse {
        var i :| 0 <= i < |s.pool.order| && s.pool.order[i] == id;
        assert !IsIdle(s.pool, s.pool.order[i], true);
      }
  }

  lemma EndEffect(size: nat, s: State, r: nat, keep: bool, mark: Mark)
    requires LeaseInv(s) && r in s.requests && s.requests[r].pc.Exchanging?
    ensures var id := s.requests[r].pc.slot;
      EndAttempt(s, size, r, keep, mark).pool
        == if keep && |s.pool.order| <= size then Changed(s.pool, id, Conn(false, true)) else Dropped(s.pool, id)
  {
    ReleaseDrops(s.pool, size, s.requests[r].pc.slot, keep);
  }

  lemma RetryEffect(size: nat, s: State, r: nat, grows: bool)
    requires LeaseInv(s) && r in s.requests && s.requests[r].pc.Exchanging?
    ensures var ended := EndAttempt(s, size, r, false, TransportFailed);
      var s' := Reacquire(ended, r, grows);
      Acquires(Dropped(s.pool, s.requests[r].pc.slot), s'.pool, s.nextId, s'.requests[r].pc)
  {
    var ended := EndAttempt(s, size, r, false, TransportFailed);
    EndEffect(size, s, r, false, TransportFailed);
    ReleaseLease(size, s, r, false, TransportFailed);
    AcquireEffect(ended, r, NextAttempt(ended.requests[r]), grows);
  }

  /** The whole effect of an action on the pool, and where it leaves the request. */
  ghost predicate PoolEffect(size: nat, s: State, a: Action)
    requires Enabled(s, a)
  {
    a.r in Next(size, s, a).requests && EffectIs(size, s, a, Next(size, s, a).pool, Next(size, s, a).requests[a.r].pc)
  }

  ghost predicate EffectIs(size: nat, s: State, a: Action, p': Pool, pc: Pc)
    requires Enabled(s, a)
  {
    match a
    case Arrive(_, _) => Acquires(s.pool, p', s.nextId, pc)
    case ConnectOk(r) =>
      var id := s.requests[r].pc.slot;
      pc.Exchanging? && pc.slot == id && p' == Changed(s.pool, id, Conn(true, true))
    case ConnectFail(r) => pc.Finished? && p' == Dropped(s.pool, s.requests[r].pc.slot)
    case Respond(r, keep) =>
      var id := s.requests[r].pc.slot;
      && pc.Finished?
      && p' == if keep && |s.pool.order| <= size then Changed(s.pool, id, Conn(false, true)) else Dropped(s.pool, id)
    case OtherError(r) => pc.Finished? && p' == Dropped(s.pool, s.requests[r].pc.slot)
    case TransportError(r, _) =>
      var p := Dropped(s.pool, s.requests[r].pc.slot);
      if pc.Finished? then p' == p else Acquires(p, p', s.nextId, pc)
  }

  lemma ConnectEffect(size: nat, s: State, a: Action)
    requires LeaseInv(s) && Enabled(s, a) && Undisturbed(s, a) && (a.ConnectOk? || a.ConnectFail?)
    ensures PoolEffect(size, s, a)
  {
    if a.ConnectFail? { ErasedIsWithout(s.pool.order, |s.pool.order| - 1); }
  }

  lemma OutcomeEffect(size: nat, s: State, a: Action)
    requires LeaseInv(s) && Enabled(s, a) && (a.Respond? || a.OtherError?)
    ensures PoolEffect(size, s, a)
  {
    if a.Respond? { EndEffect(size, s, a.r, a.keep, Responded); } else { EndEffect(size, s, a.r, false, OtherFailed); }
  }

  lemma TransportEffect(size: nat, s: State, r: nat, grows: bool)
    requires LeaseInv(s) && Enabled(s, TransportError(r, grows))
    ensures PoolEffect(size, s, TransportError(r, grows))
  {
    EndEffect(size, s, r, false, TransportFailed);
    RetryEffect(size, s, r, grows);
  }

  lemma StepEffect(size: nat, s: State, a: Action)
    requires LeaseInv(s) && Enabled(s, a) && Undisturbed(s, a)
    ensures PoolEffect(size, s, a)
  {
    match a
    case Arrive(r, grows) => AcquireEffect(s, r, Request(0, Finished, [], 0), grows);
    case TransportError(r, grows) => TransportEffect(size, s, r, grows);
    case ConnectOk(_) => ConnectEffect(size, s, a);
    case ConnectFail(_) => ConnectEffect(size, s, a);
    case _ => OutcomeEffect(size, s, a);
  }

  /**
   In every run with undisturbed connects, an arriving request takes the first free slot or appends one; a connect
   that succeeds connects its own slot and one that fails removes it; after a response the slot stays, idle, iff the
   response allows it and the pool is within its size; after an error it is gone, and a retry acquires from the rest.
   Every other slot keeps its state and its place.
   */
  lemma PoolEffects(size: nat, run: seq<Action>, a: Action)
    requires Legal(size, INIT, run) && AllUndisturbed(size, INIT, run)
    requires Enabled(Run(size, INIT, run), a) && Undisturbed(Run(size, INIT, run), a)
    ensures PoolEffect(size, Run(size, INIT, run), a)
  {
    LeaseSafety(size, run);
    StepEffect(size, Run(size, INIT, run), a);
  }

  // ---------------------------------------------------------------------------------------------
  // A slot that has left the pool never comes back

  ghost predicate Gone(s: State, id: nat) {
    id !in s.pool.conns && id < s.nextId
  }

  predicate EndsExchangeBadly(a: Action) {
    a.TransportError? || a.OtherError? || (a.Respond? && !a.keep)
  }

  lemma AcquireKeepsGone(s: State, r: nat, req: Request, grows: bool, id: nat)
    requires Gone(s, id)
    ensures Gone(BeginAcquire(s, r, req, grows), id)
  {
  }

  lemma EndKeepsGone(size: nat, s: State, r: nat, keep: bool, mark: Mark, id: nat)
    requires LeaseInv(s) && r in s.requests && s.requests[r].pc.Exchanging?
    ensures Gone(s, id) ==> Gone(EndAttempt(s, size, r, keep, mark), id)
    ensures !keep ==> Gone(EndAttempt(s, size, r, keep, mark), s.requests[r].pc.slot)
  {
    EndEffect(size, s, r, keep, mark);
  }

  lemma RetryKeepsGone(size: nat, s: State, r: nat, grows: bool, id: nat)
    requires LeaseInv(s) && Enabled(s, TransportError(r, grows)) && (Gone(s, id) || id == s.requests[r].pc.slot)
    ensures Gone(Next(size, s, TransportError(r, grows)), id)
  {
    var ended := EndAttempt(s, size, r, false, TransportFailed);
    EndKeepsGone(size, s, r, false, TransportFailed, id);
    AcquireKeepsGone(ended, r, NextAttempt(ended.requests[r]), grows, id);
  }

  lemma GoneStays(size: nat, s: State, a: Action, id: nat)
    requires LeaseInv(s) && Enabled(s, a)
    requires Gone(s, id) || (EndsExchangeBadly(a) && id == s.requests[a.r].pc.slot)
    ensures Gone(Next(size, s, a), id)
  {
    match a
    case Arrive(r, grows) => AcquireKeepsGone(s, r, Request(0, Finished, [], 0), grows, id);
    case Respond(r, keep) => EndKeepsGone(size, s, r, keep, Responded, id);
    case OtherError(r) => EndKeepsGone(size, s, r, false, OtherFailed, id);
    case TransportError(r, grows) => RetryKeepsGone(size, s, r, grows, id);
    case _ =>
  }

  lemma {:induction false} GoneFrom(size: nat, s: State, run: seq<Action>, id: nat)
    requires LeaseInv(s) && Gone(s, id) && Legal(size, s, run) && AllUndisturbed(size, s, run)
    ensures LeaseInv(Run(size, s, run)) && Gone(Run(size, s, run), id)
    decreases |run|
  {
    if run != [] {
      ActionLease(size, s, run[0]);
      GoneStays(size, s, run[0], id);
      GoneFrom(size, Next(size, s, run[0]), run[1..], id);
    }
  }

  lemma GoneIsUnheld(s: State, q: nat, id: nat)
    requires LeasesMatch(s) && Gone(s, id) && q in s.requests
    ensures Holds(s.requests[q]) != Some(id)
  {
  }

  /** After an error or a response that closes the connection, no request ever holds that slot again. */
  lemma DiscardedSlotNeverReturns(size: nat, run: seq<Action>, a: Action, later: seq<Action>, q: nat)
    requires Legal(size, INIT, run) && AllUndisturbed(size, INIT, run)
    requires Enabled(Run(size, INIT, run), a) && EndsExchangeBadly(a)
    requires var s' := Next(size, Run(size, INIT, run), a);
      Legal(size, s', later) && AllUndisturbed(size, s', later) && q in Run(size, s', later).requests
    ensures var s := Run(size, INIT, run);
      Holds(Run(size, Next(size, s, a), later).requests[q]) != Some(s.requests[a.r].pc.slot)
  {
    LeaseSafety(size, run);
    var s := Run(size, INIT, run);
    GoneStays(size, s, a, s.requests[a.r].pc.slot);
    ActionLease(size, s, a);
    GoneFrom(size, Next(size, s, a), later, s.requests[a.r].pc.slot);
    GoneIsUnheld(Run(size, Next(size, s, a), later), q, s.requests[a.r].pc.slot);
  }

  // ---------------------------------------------------------------------------------------------
  // The retry rule

  ghost predicate SlotConnected(s: State, id: nat) {
    id in s.pool.conns && s.pool.conns[id].connected
  }

  /** A request that an action starts to exchange carries the resulting pool's size and its slot's state. */
  ghost predicate MarkedFromPool(size: nat, s: State, a: Action)
    requires Enabled(s, a)
  {
    var s' := Next(size, s, a);
    && a.r in s'.requests
    && var req := s'.requests[a.r];
       req.pc.Exchanging? ==>
         && req.trail != [] && req.trail[|req.trail| - 1].Acquired?
         && req.trail[|req.trail| - 1].poolSize == |s'.pool.order|
         && (req.trail[|req.trail| - 1].connected <==> SlotConnected(s', req.pc.slot))
         && (req.trail[|req.trail| - 1].reused <==> req.pc.slot in s.used)
         && (req.pc.retriable <==> req.attempt == 0 && (|s'.pool.order| > 1 || !SlotConnected(s', req.pc.slot)))
  }

  /** In every run, disturbed or not. */
  lemma MarksTellThePool(size: nat, s: State, a: Action)
    requires Enabled(s, a)
    ensures MarkedFromPool(size, s, a)
  {
  }

  lemma OthersUntouched(size: nat, s: State, b: Action, r: nat)
    requires Enabled(s, b) && b.r != r && r in s.requests
    ensures r in Next(size, s, b).requests && Next(size, s, b).requests[r] == s.requests[r]
  {
  }

  lemma {:induction false} OthersUntouchedBy(size: nat, s: State, run: seq<Action>, r: nat)
    requires Legal(size, s, run) && (forall i :: 0 <= i < |run| ==> run[i].r != r) && r in s.requests
    ensures r in Run(size, s, run).requests && Run(size, s, run).requests[r] == s.requests[r]
    decreases |run|
  {
    if run != [] {
      OthersUntouched(size, s, run[0], r);
      OthersUntouchedBy(size, Next(size, s, run[0]), run[1..], r);
    }
  }

  lemma RetriedIffRetriable(size: nat, s: State, r: nat, grows: bool)
    requires Enabled(s, TransportError(r, grows)) && s.requests[r].attempt == 0
    ensures var req := Next(size, s, TransportError(r, grows)).requests[r];
      && (req.attempt == 1 <==> s.requests[r].pc.retriable)
      && (req.attempt == 1 <==> !req.pc.Finished?)
  {
  }

  lemma UndisturbedIsConnected(size: nat, run: seq<Action>, a: Action)
    requires Legal(size, INIT, run) && AllUndisturbed(size, INIT, run)
    requires Enabled(Run(size, INIT, run), a) && Undisturbed(Run(size, INIT, run), a)
    ensures var s' := Next(size, Run(size, INIT, run), a);
      a.r in s'.requests && s'.requests[a.r].pc.Exchanging? ==> SlotConnected(s', s'.requests[a.r].pc.slot)
  {
    LeaseSafety(size, run);
    ActionLease(size, Run(size, INIT, run), a);
  }

  /**
   Action a sends request r for the first time; whatever the other requests then do, a transport error is retried
   iff the pool held more than one slot, or an unconnected slot was used, as the request was sent.
   */
  lemma RetryLooksAtThePool(size: nat, before: seq<Action>, a: Action, between: seq<Action>, grows: bool)
    requires Legal(size, INIT, before) && Enabled(Run(size, INIT, before), a)
    requires var s1 := Next(size, Run(size, INIT, before), a);
      && a.r in s1.requests && s1.requests[a.r].pc.Exchanging? && s1.requests[a.r].attempt == 0
      && Legal(size, s1, between) && forall i :: 0 <= i < |between| ==> between[i].r != a.r
    ensures var s1 := Next(size, Run(size, INIT, before), a);
      var s2 := Run(size, s1, between);
      && Enabled(s2, TransportError(a.r, grows))
      && var req := Next(size, s2, TransportError(a.r, grows)).requests[a.r];
         && (req.attempt == 1 <==> |s1.pool.order| > 1 || !SlotConnected(s1, s1.requests[a.r].pc.slot))
         && (req.attempt == 1 <==> !req.pc.Finished?)
         && (AllUndisturbed(size, INIT, before) && Undisturbed(Run(size, INIT, before), a) ==>
               (req.attempt == 1 <==> |s1.pool.order| > 1))
  {
    var s0 := Run(size, INIT, before);
    var s1 := Next(size, s0, a);
    MarksTellThePool(size, s0, a);
    OthersUntouchedBy(size, s1, between, a.r);
    RetriedIffRetriable(size, Run(size, s1, between), a.r, grows);
    if AllUndisturbed(size, INIT, before) && Undisturbed(s0, a) { UndisturbedIsConnected(size, before, a); }
  }
}
