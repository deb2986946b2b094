/**
 Requests that share the connection pool on one event loop.  A request runs without interruption between
 its suspension points, which are the connect inside `acquire_connection` and the exchange of request and
 response; each action below is one such stretch of code.

 While it connects a new slot, `acquire_connection` keeps a reference to the vector element that owns the
 slot.  After the suspension it uses the element's position, not the slot: `pop_back` on failure, and on
 success the slot found through the reference.  A reference into storage that the vector has since
 reallocated, or past its end, finds the null that a moved or destroyed owner leaves behind.
 */
module HttpRequests {
  import opened Wrappers
  import opened ConnectionPools

  /** A reference to a vector element: the storage it lies in and its position there. */
  datatype Ref = Ref(epoch: nat, index: nat)

  datatype Pc =
    | Connecting(slot: nat, ref: Ref, overflow: bool)
    | Exchanging(slot: nat, retriable: bool)
    | Finished
    | Undefined

  /**
   What has happened to a request so far.  `Acquired` is followed at once by sending the request; it records how
   many slots the pool held, whether the slot was connected, and whether a request had been sent on it before.
   */
  datatype Mark =
    | Acquired(poolSize: nat, connected: bool, reused: bool)
    | AcquireFailed
    | Responded
    | TransportFailed
    | OtherFailed

  datatype Request = Request(attempt: nat, pc: Pc, trail: seq<Mark>, released: nat)

  /** `used` holds the slots on which a request has been sent. */
  datatype State = State(pool: Pool, nextId: nat, epoch: nat, requests: map<nat, Request>, used: set<nat>)

  /** `grows` says whether a vector append, should the action need one, reallocates. */
  datatype Action =
    | Arrive(r: nat, grows: bool)
    | ConnectOk(r: nat)
    | ConnectFail(r: nat)
    | Respond(r: nat, keep: bool)
    | TransportError(r: nat, grows: bool)
    | OtherError(r: nat)

  const INIT := State(Pool([], map[]), 0, 0, map[], {})

  predicate Enabled(s: State, a: Action) {
    match a
    case Arrive(r, _) => r !in s.requests
    case ConnectOk(r) => r in s.requests && s.requests[r].pc.Connecting?
    case ConnectFail(r) => r in s.requests && s.requests[r].pc.Connecting?
    case Respond(r, _) => r in s.requests && s.requests[r].pc.Exchanging?
    case TransportError(r, _) => r in s.requests && s.requests[r].pc.Exchanging?
    case OtherError(r) => r in s.requests && s.requests[r].pc.Exchanging?
  }

  function Resolve(s: State, ref: Ref): Option<nat> {
    if ref.epoch == s.epoch && ref.index < |s.pool.order| then Some(s.pool.order[ref.index]) else None
  }

  /** Back in `execute` with a connection: decide whether a transport error may be retried, and send. */
  function StartExchange(s: State, r: nat, req: Request, id: nat): State {
    var size := |s.pool.order|;
    var connected := id in s.pool.conns && s.pool.conns[id].connected;
    var pc := Exchanging(id, req.attempt == 0 && (size > 1 || !connected));
    var mark := Acquired(size, connected, id in s.used);
    s.(requests := s.requests[r := req.(pc := pc, trail := req.trail + [mark])], used := s.used + {id})
  }

  function Reuse(s: State, r: nat, req: Request, i: nat): State
    requires i < |s.pool.order|
  {
    var id := s.pool.order[i];
    StartExchange(s.(pool := MarkInUse(s.pool, id)), r, req, id)
  }

  function Reconnect(s: State, r: nat, req: Request, i: nat): State
    requires i < |s.pool.order|
  {
    var id := s.pool.order[i];
    s.(pool := MarkInUse(s.pool, id),
       requests := s.requests[r := req.(pc := Connecting(id, Ref(s.epoch, i), false))])
  }

  function ConnectNew(s: State, r: nat, req: Request, grows: bool): State {
    var epoch := if grows then s.epoch + 1 else s.epoch;
    var pc := Connecting(s.nextId, Ref(epoch, |s.pool.order|), true);
    State(Append(s.pool, s.nextId), s.nextId + 1, epoch, s.requests[r := req.(pc := pc)], s.used)
  }

  /** `acquire_connection` up to its suspension, or through to the first suspension of the exchange. */
  function BeginAcquire(s: State, r: nat, req: Request, grows: bool): State {
    match FirstIdle(s.pool, true, 0)
    case Some(i) => Reuse(s, r, req, i)
    case None =>
      match FirstIdle(s.pool, false, 0) {
        case Some(i) => Reconnect(s, r, req, i)
        case None => ConnectNew(s, r, req, grows)
      }
  }

  /** `release_connection` and the end of one attempt. */
  function EndAttempt(s: State, size: nat, r: nat, keep: bool, mark: Mark): State
    requires r in s.requests && s.requests[r].pc.Exchanging?
  {
    var req := s.requests[r];
    s.(pool := Release(s.pool, size, req.pc.slot, keep),
       requests := s.requests[r := Request(req.attempt, Finished, req.trail + [mark], req.released + 1)])
  }

  function NextAttempt(req: Request): Request {
    req.(attempt := req.attempt + 1)
  }

  /** The loop's second round. */
  function Reacquire(s: State, r: nat, grows: bool): State
    requires r in s.requests
  {
    BeginAcquire(s, r, NextAttempt(s.requests[r]), grows)
  }

  function Next(size: nat, s: State, a: Action): State
    requires Enabled(s, a)
  {
    match a
    case Arrive(r, grows) => BeginAcquire(s, r, Request(0, Finished, [], 0), grows)
    case ConnectOk(r) =>
      var req := s.requests[r];
      var s' := s.(pool := MarkConnected(s.pool, req.pc.slot));
      (match Resolve(s', req.pc.ref)
       case Some(id) => StartExchange(s', r, req, id)
       case None => s'.(requests := s.requests[r := req.(pc := Undefined)]))
    case ConnectFail(r) =>
      var req := s.requests[r];
      s.(pool := if req.pc.overflow then PopBack(s.pool) else s.pool,
         requests := s.requests[r := req.(pc := Finished, trail := req.trail + [AcquireFailed])])
    case Respond(r, keep) => EndAttempt(s, size, r, keep, Responded)
    case TransportError(r, grows) =>
      var s' := EndAttempt(s, size, r, false, TransportFailed);
      if !s.requests[r].pc.retriable || s.requests[r].attempt == 1 then s' else Reacquire(s', r, grows)
    case OtherError(r) => EndAttempt(s, size, r, false, OtherFailed)
  }

  predicate Legal(size: nat, s: State, run: seq<Action>)
    decreases |run|
  {
    run == [] || (Enabled(s, run[0]) && Legal(size, Next(size, s, run[0]), run[1..]))
  }

  function Run(size: nat, s: State, run: seq<Action>): State
    requires Legal(size, s, run)
    decreases |run|
  {
    if run == [] then s else Run(size, Next(size, s, run[0]), run[1..])
  }

  // ---------------------------------------------------------------------------------------------
  // Leases

  function Holds(req: Request): Option<nat> {
    if req.pc.Connecting? || req.pc.Exchanging? then Some(req.pc.slot) else None
  }

  ghost predicate Held(s: State, id: nat) {
    exists r :: r in s.requests && Holds(s.requests[r]) == Some(id)
  }

  /** Requests in flight and slots in use correspond one to one. */
  ghost predicate LeasesMatch(s: State) {
    && (forall r :: r in s.requests ==> !s.requests[r].pc.Undefined?)
    && (forall r :: r in s.requests && Holds(s.requests[r]).Some? ==>
          var id := Holds(s.requests[r]).value; id in s.pool.conns && s.pool.conns[id].inUse)
    && (forall r, r' :: r in s.requests && r' in s.requests && r != r' && Holds(s.requests[r]).Some? ==>
          Holds(s.requests[r]) != Holds(s.requests[r']))
    && (forall id :: id in s.pool.conns && s.pool.conns[id].inUse ==> Held(s, id))
  }

  /** Idle slots and slots in an exchange are connected, and only new slots are ever being connected. */
  ghost predicate ConnectedWhereNeeded(s: State) {
    && (forall id :: id in s.pool.conns && !s.pool.conns[id].inUse ==> s.pool.conns[id].connected)
    && (forall r :: r in s.requests && s.requests[r].pc.Exchanging? ==>
          var id := s.requests[r].pc.slot; id in s.pool.conns && s.pool.conns[id].connected)
    && (forall r :: r in s.requests && s.requests[r].pc.Connecting? ==> s.requests[r].pc.overflow)
  }

  ghost predicate PoolInv(s: State) {
    WellFormed(s.pool) && forall id :: id in s.pool.conns ==> id < s.nextId
  }

  ghost predicate LeaseInv(s: State) {
    PoolInv(s) && LeasesMatch(s) && ConnectedWhereNeeded(s)
  }

  /** When a connect ends, its slot is still where the code will look for it. */
  predicate Undisturbed(s: State, a: Action)
    requires Enabled(s, a)
  {
    match a
    case ConnectOk(r) => Resolve(s, s.requests[r].pc.ref) == Some(s.requests[r].pc.slot)
    case ConnectFail(r) => s.pool.order != [] && s.pool.order[|s.pool.order| - 1] == s.requests[r].pc.slot
    case _ => true
  }

  /** Request r takes over slot `id`, which nobody else holds. */
  lemma MatchWith(s: State, s': State, r: nat, id: nat)
    requires LeasesMatch(s)
    requires r in s.requests ==> Holds(s.requests[r]).None? || Holds(s.requests[r]).value == id
    requires r in s'.requests && s'.requests == s.requests[r := s'.requests[r]]
    requires Holds(s'.requests[r]) == Some(id)
    requires forall q :: q in s.requests && q != r ==> Holds(s.requests[q]) != Some(id)
    requires forall k: nat :: k in s'.pool.conns && s'.pool.conns[k].inUse
                         <==> (k in s.pool.conns && s.pool.conns[k].inUse) || k == id
    ensures LeasesMatch(s')
  {
    HeldStill(s, s', r, id);
  }

  lemma ReuseLease(s: State, r: nat, req: Request, i: nat)
    requires LeaseInv(s) && (r in s.requests ==> Holds(s.requests[r]).None?)
    requires i < |s.pool.order| && IsIdle(s.pool, s.pool.order[i], true)
    ensures LeaseInv(Reuse(s, r, req, i))
  {
    MatchWith(s, Reuse(s, r, req, i), r, s.pool.order[i]);
  }

  lemma NewLease(s: State, r: nat, req: Request, grows: bool)
    requires LeaseInv(s) && (r in s.requests ==> Holds(s.requests[r]).None?)
    ensures LeaseInv(ConnectNew(s, r, req, grows))
  {
    AppendKeeps(s.pool, s.nextId);
    MatchWith(s, ConnectNew(s, r, req, grows), r, s.nextId);
  }

  /** Idle slots being connected, an acquire never takes the branch for an idle unconnected slot. */
  lemma NoIdleUnconnected(s: State, r: nat, req: Request, grows: bool)
    requires WellFormed(s.pool) && ConnectedWhereNeeded(s)
    ensures FirstIdle(s.pool, false, 0) == None
    ensures BeginAcquire(s, r, req, grows)
         == match FirstIdle(s.pool, true, 0)
            case Some(i) => Reuse(s, r, req, i)
            case None => ConnectNew(s, r, req, grows)
  {
  }

  lemma AcquireLease(s: State, r: nat, req: Request, grows: bool)
    requires LeaseInv(s) && (r in s.requests ==> Holds(s.requests[r]).None?)
    ensures LeaseInv(BeginAcquire(s, r, req, grows))
  {
    NoIdleUnconnected(s, r, req, grows);
    match FirstIdle(s.pool, true, 0)
    case Some(i) => ReuseLease(s, r, req, i);
    case None => NewLease(s, r, req, grows);
  }

  /** If only request r changes and ends up holding `id`, every slot held before is held after. */
  lemma HeldStill(s: State, s': State, r: nat, id: nat)
    requires r in s.requests ==> Holds(s.requests[r]).None? || Holds(s.requests[r]).value == id
    requires r in s'.requests && s'.requests == s.requests[r := s'.requests[r]]
    requires Holds(s'.requests[r]) == Some(id)
    ensures forall k: nat :: Held(s, k) || k == id ==> Held(s', k)
  {
    forall k: nat | Held(s, k) ensures Held(s', k) {
      var h :| h in s.requests && Holds(s.requests[h]) == Some(k);
      if h != r { assert s'.requests[h] == s.requests[h]; }
    }
  }

  lemma HeldExcept(s: State, s': State, r: nat)
    requires r in s.requests && r in s'.requests && s'.requests == s.requests[r := s'.requests[r]]
    ensures forall k: nat :: Held(s, k) && Holds(s.requests[r]) != Some(k) ==> Held(s', k)
  {
    forall k: nat | Held(s, k) && Holds(s.requests[r]) != Some(k) ensures Held(s', k) {
      var h :| h in s.requests && Holds(s.requests[h]) == Some(k);
      assert s'.requests[h] == s.requests[h];
    }
  }

  /** Only requests that held a slot, and slots that were held, matter to the correspondence. */
  lemma MatchWithout(s: State, s': State, r: nat)
    requires LeasesMatch(s) && r in s.requests
    requires r in s'.requests && s'.requests == s.requests[r := s'.requests[r]] && s'.requests[r].pc.Finished?
    requires forall k: nat :: k in s'.pool.conns && s'.pool.conns[k].inUse
                         <==> k in s.pool.conns && s.pool.conns[k].inUse && Holds(s.requests[r]) != Some(k)
    ensures LeasesMatch(s')
  {
    HeldExcept(s, s', r);
  }

  /** The request ends and its slot leaves the pool. */
  lemma DropLease(s: State, s': State, r: nat)
    requires LeaseInv(s) && r in s.requests && Holds(s.requests[r]).Some?
    requires s'.nextId == s.nextId && WellFormed(s'.pool)
    requires forall k: nat :: k in s'.pool.conns <==> k in s.pool.conns && Holds(s.requests[r]) != Some(k)
    requires forall k: nat :: k in s'.pool.conns ==> s'.pool.conns[k] == s.pool.conns[k]
    requires r in s'.requests && s'.requests == s.requests[r := s'.requests[r]] && s'.requests[r].pc.Finished?
    ensures LeaseInv(s')
  {
    MatchWithout(s, s', r);
  }

  /** The request ends and its connected slot stays in the pool, idle. */
  lemma IdleLease(s: State, s': State, r: nat)
    requires LeaseInv(s) && r in s.requests && s.requests[r].pc.Exchanging?
    requires s'.nextId == s.nextId
    requires var id := s.requests[r].pc.slot;
      s'.pool == Pool(s.pool.order, s.pool.conns[id := s.pool.conns[id].(inUse := false)])
    requires r in s'.requests && s'.requests == s.requests[r := s'.requests[r]] && s'.requests[r].pc.Finished?
    ensures LeaseInv(s')
  {
    MatchWithout(s, s', r);
  }

  lemma ReleaseLease(size: nat, s: State, r: nat, keep: bool, mark: Mark)
    requires LeaseInv(s) && r in s.requests && s.requests[r].pc.Exchanging?
    ensures LeaseInv(EndAttempt(s, size, r, keep, mark))
  {
    var s' := EndAttempt(s, size, r, keep, mark);
    ReleaseMeaning(s.pool, size, s.requests[r].pc.slot, keep);
    if !keep || |s.pool.order| > size { DropLease(s, s', r); } else { IdleLease(s, s', r); }
  }

  /** A slot in use that the request no longer holds is held by nobody. */
  lemma Orphaned(s: State, s': State, r: nat)
    requires LeasesMatch(s) && r in s.requests && Holds(s.requests[r]).Some?
    requires r in s'.requests && s'.requests == s.requests[r := s'.requests[r]]
    requires Holds(s'.requests[r]) != Holds(s.requests[r])
    requires var id := Holds(s.requests[r]).value; id in s'.pool.conns && s'.pool.conns[id].inUse
    ensures !LeasesMatch(s')
  {
    var id := Holds(s.requests[r]).value;
    assert !Held(s', id);
  }

  lemma ConnectOkLease(size: nat, s: State, r: nat)
    requires LeaseInv(s) && Enabled(s, ConnectOk(r)) && Undisturbed(s, ConnectOk(r))
    ensures LeaseInv(Next(size, s, ConnectOk(r)))
  {
    MatchWith(s, Next(size, s, ConnectOk(r)), r, s.requests[r].pc.slot);
  }

  lemma ConnectOkOrphans(size: nat, s: State, r: nat)
    requires LeaseInv(s) && Enabled(s, ConnectOk(r)) && !Undisturbed(s, ConnectOk(r))
    ensures !LeasesMatch(Next(size, s, ConnectOk(r)))
  {
    Orphaned(s, Next(size, s, ConnectOk(r)), r);
  }

  lemma ConnectFailLease(size: nat, s: State, r: nat)
    requires LeaseInv(s) && Enabled(s, ConnectFail(r)) && Undisturbed(s, ConnectFail(r))
    ensures LeaseInv(Next(size, s, ConnectFail(r)))
  {
    EraseKeeps(s.pool, |s.pool.order| - 1);
    DropLease(s, Next(size, s, ConnectFail(r)), r);
  }

  lemma ConnectFailOrphans(size: nat, s: State, r: nat)
    requires LeaseInv(s) && Enabled(s, ConnectFail(r)) && !Undisturbed(s, ConnectFail(r))
    ensures !LeasesMatch(Next(size, s, ConnectFail(r)))
  {
    EraseKeeps(s.pool, |s.pool.order| - 1);
    Orphaned(s, Next(size, s, ConnectFail(r)), r);
  }

  lemma ReacquireLease(s: State, r: nat, grows: bool)
    requires LeaseInv(s) && r in s.requests && s.requests[r].pc.Finished?
    ensures LeaseInv(Reacquire(s, r, grows))
  {
    AcquireLease(s, r, NextAttempt(s.requests[r]), grows);
  }

  lemma RetryLease(size: nat, s: State, r: nat, grows: bool)
    requires LeaseInv(s) && r in s.requests && s.requests[r].pc.Exchanging?
    ensures LeaseInv(Reacquire(EndAttempt(s, size, r, false, TransportFailed), r, grows))
  {
    ReleaseLease(size, s, r, false, TransportFailed);
    ReacquireLease(EndAttempt(s, size, r, false, TransportFailed), r, grows);
  }

  /** One action keeps the leases iff it is undisturbed. */
  lemma ActionLease(size: nat, s: State, a: Action)
    requires LeaseInv(s) && Enabled(s, a)
    ensures Undisturbed(s, a) ==> LeaseInv(Next(size, s, a))
    ensures !Undisturbed(s, a) ==> !LeasesMatch(Next(size, s, a))
  {
    match a
    case Arrive(r, grows) => AcquireLease(s, r, Request(0, Finished, [], 0), grows);
    case ConnectOk(r) =>
      if Undisturbed(s, a) { ConnectOkLease(size, s, r); } else { ConnectOkOrphans(size, s, r); }
    case ConnectFail(r) =>
      if Undisturbed(s, a) { ConnectFailLease(size, s, r); } else { ConnectFailOrphans(size, s, r); }
    case Respond(r, keep) => ReleaseLease(size, s, r, keep, Responded);
    case TransportError(r, grows) =>
      ReleaseLease(size, s, r, false, TransportFailed);
      RetryLease(size, s, r, grows);
    case OtherError(r) => ReleaseLease(size, s, r, false, OtherFailed);
  }

  predicate AllUndisturbed(size: nat, s: State, run: seq<Action>)
    requires Legal(size, s, run)
    decreases |run|
  {
    run == [] || (Undisturbed(s, run[0]) && AllUndisturbed(size, Next(size, s, run[0]), run[1..]))
  }

  ghost predicate LeasesMatchThroughout(size: nat, s: State, run: seq<Action>)
    requires Legal(size, s, run)
    decreases |run|
  {
    LeasesMatch(s) && (run == [] || LeasesMatchThroughout(size, Next(size, s, run[0]), run[1..]))
  }

  lemma {:induction false} LeaseSafetyFrom(size: nat, s: State, run: seq<Action>)
    requires LeaseInv(s) && Legal(size, s, run)
    ensures LeasesMatchThroughout(size, s, run) <==> AllUndisturbed(size, s, run)
    ensures AllUndisturbed(size, s, run) ==> LeaseInv(Run(size, s, run))
    decreases |run|
  {
    if run != [] {
      ActionLease(size, s, run[0]);
      if Undisturbed(s, run[0]) { LeaseSafetyFrom(size, Next(size, s, run[0]), run[1..]); }
    }
  }

  /**
   In every interleaving of requests, each slot in use belongs to exactly one request in flight at every
   moment iff every connect that ended found its slot undisturbed; idle slots are then connected.
   */
  lemma LeaseSafety(size: nat, run: seq<Action>)
    requires Legal(size, INIT, run)
    ensures LeasesMatchThroughout(size, INIT, run) <==> AllUndisturbed(size, INIT, run)
    ensures AllUndisturbed(size, INIT, run) ==> LeaseInv(Run(size, INIT, run))
  {
    LeaseSafetyFrom(size, INIT, run);
  }

  // ---------------------------------------------------------------------------------------------
  // A condition callers can meet: nothing else happens while a request connects

  ghost predicate Exclusive(s: State, a: Action) {
    forall r :: r in s.requests && s.requests[r].pc.Connecting? ==> a == ConnectOk(r) || a == ConnectFail(r)
  }

  ghost predicate AllExclusive(size: nat, s: State, run: seq<Action>)
    requires Legal(size, s, run)
    decreases |run|
  {
    run == [] || (Exclusive(s, run[0]) && AllExclusive(size, Next(size, s, run[0]), run[1..]))
  }

  ghost predicate RefsInv(s: State) {
    forall r :: r in s.requests && s.requests[r].pc.Connecting? ==>
      && s.pool.order != []
      && s.requests[r].pc.ref == Ref(s.epoch, |s.pool.order| - 1)
      && s.pool.order[|s.pool.order| - 1] == s.requests[r].pc.slot
  }

  ghost predicate NoneConnects(s: State) {
    forall r :: r in s.requests ==> !s.requests[r].pc.Connecting?
  }

  lemma AcquireRefs(s: State, r: nat, req: Request, grows: bool)
    requires WellFormed(s.pool) && ConnectedWhereNeeded(s) && NoneConnects(s)
    ensures RefsInv(BeginAcquire(s, r, req, grows))
  {
    NoIdleUnconnected(s, r, req, grows);
  }

  lemma ReacquireRefs(s: State, r: nat, grows: bool)
    requires WellFormed(s.pool) && ConnectedWhereNeeded(s) && NoneConnects(s) && r in s.requests
    ensures RefsInv(Reacquire(s, r, grows))
  {
    AcquireRefs(s, r, NextAttempt(s.requests[r]), grows);
  }

  lemma RetryRefs(size: nat, s: State, r: nat, grows: bool)
    requires LeaseInv(s) && NoneConnects(s) && r in s.requests && s.requests[r].pc.Exchanging?
    ensures RefsInv(Reacquire(EndAttempt(s, size, r, false, TransportFailed), r, grows))
  {
    ReleaseLease(size, s, r, false, TransportFailed);
    ReacquireRefs(EndAttempt(s, size, r, false, TransportFailed), r, grows);
  }

  lemma ConnectEndsAlone(size: nat, s: State, a: Action)
    requires LeasesMatch(s) && RefsInv(s) && Enabled(s, a) && (a.ConnectOk? || a.ConnectFail?)
    ensures Undisturbed(s, a) && NoneConnects(Next(size, s, a))
  {
  }

  lemma ExclusiveStep(size: nat, s: State, a: Action)
    requires LeaseInv(s) && RefsInv(s) && Enabled(s, a) && Exclusive(s, a)
    ensures Undisturbed(s, a) && RefsInv(Next(size, s, a))
  {
    if a.ConnectOk? || a.ConnectFail? {
      ConnectEndsAlone(size, s, a);
    } else {
      assert NoneConnects(s);
      if a.Arrive? { AcquireRefs(s, a.r, Request(0, Finished, [], 0), a.grows); }
      if a.TransportError? { RetryRefs(size, s, a.r, a.grows); }
    }
  }

  /** If connects never overlap other activity, leases are safe. */
  lemma {:induction false} ExclusiveConnectsAreSafe(size: nat, s: State, run: seq<Action>)
    requires LeaseInv(s) && RefsInv(s) && Legal(size, s, run) && AllExclusive(size, s, run)
    ensures AllUndisturbed(size, s, run)
    decreases |run|
  {
    if run != [] {
      ExclusiveStep(size, s, run[0]);
      ActionLease(size, s, run[0]);
      ExclusiveConnectsAreSafe(size, Next(size, s, run[0]), run[1..]);
    }
  }

  // ---------------------------------------------------------------------------------------------
  // Two connects that overlap

  lemma Precede(size: nat, s: State, a: Action, rest: seq<Action>)
    requires Enabled(s, a) && Legal(size, Next(size, s, a), rest)
    ensures Legal(size, s, [a] + rest) && Run(size, s, [a] + rest) == Run(size, Next(size, s, a), rest)
    ensures AllUndisturbed(size, s, [a] + rest)
       <==> Undisturbed(s, a) && AllUndisturbed(size, Next(size, s, a), rest)
  {
    assert ([a] + rest)[1..] == rest;
  }

  /** The first connect fails and discards the second request's slot, which is then in flight without a slot. */
  lemma OverlappingConnectsBreakLeases(size: nat)
    ensures var run := [Arrive(1, true), Arrive(2, true), ConnectFail(1)];
      && Legal(size, INIT, run) && !AllUndisturbed(size, INIT, run)
      && var s := Run(size, INIT, run);
         s.requests[2].pc == Connecting(1, Ref(2, 1), true) && s.pool.order == [0] && s.pool.conns[0].inUse
  {
    var s1 := Next(size, INIT, Arrive(1, true));
    assert s1 == State(Pool([0], map[0 := Conn(true, false)]), 1, 1,
                       map[1 := Request(0, Connecting(0, Ref(1, 0), true), [], 0)], {});
    var s2 := Next(size, s1, Arrive(2, true));
    assert s2.pool.order == [0, 1] && s2.requests[1] == s1.requests[1];
    var s3 := Next(size, s2, ConnectFail(1));
    assert s3.pool.order == [0];
    Precede(size, s2, ConnectFail(1), []);
    Precede(size, s1, Arrive(2, true), [ConnectFail(1)]);
    Precede(size, INIT, Arrive(1, true), [Arrive(2, true), ConnectFail(1)]);
    assert [Arrive(1, true)] + [Arrive(2, true), ConnectFail(1)] == [Arrive(1, true), Arrive(2, true), ConnectFail(1)];
  }

  /** The second append moves the vector's storage, and the first connect succeeds through a dangling reference. */
  lemma OverlappingConnectLosesItsSlot(size: nat)
    ensures var run := [Arrive(1, true), Arrive(2, true), ConnectOk(1)];
      && Legal(size, INIT, run) && !AllUndisturbed(size, INIT, run)
      && var s := Run(size, INIT, run);
         1 in s.requests && s.requests[1].pc.Undefined? && s.pool.order == [0, 1] && s.pool.conns[0] == Conn(true, true)
  {
    var s1 := Next(size, INIT, Arrive(1, true));
    assert s1 == State(Pool([0], map[0 := Conn(true, false)]), 1, 1,
                       map[1 := Request(0, Connecting(0, Ref(1, 0), true), [], 0)], {});
    var s2 := Next(size, s1, Arrive(2, true));
    assert s2.pool.order == [0, 1] && s2.epoch == 2 && s2.requests[1] == s1.requests[1];
    Precede(size, s2, ConnectOk(1), []);
    Precede(size, s1, Arrive(2, true), [ConnectOk(1)]);
    Precede(size, INIT, Arrive(1, true), [Arrive(2, true), ConnectOk(1)]);
    assert [Arrive(1, true)] + [Arrive(2, true), ConnectOk(1)] == [Arrive(1, true), Arrive(2, true), ConnectOk(1)];
  }
}
