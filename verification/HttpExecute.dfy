/** How far the connection pool grows, and when `execute` sends a request a second time. */
module HttpExecute {
  import opened Wrappers
  import opened ConnectionPools
  import opened HttpRequests

  // ---------------------------------------------------------------------------------------------
  // Pool size.  None of this needs undisturbed connects, except for the quiescent pool.

  ghost predicate SizeInv(size: nat, s: State) {
    && PoolInv(s)
    && (|s.pool.order| > size ==> forall id :: id in s.pool.conns ==> s.pool.conns[id].inUse)
  }

  function InUse(s: State): set<nat> {
    set id | id in s.pool.conns && s.pool.conns[id].inUse
  }

  /** From s to s' the vector did not grow, unless every slot is now in use. */
  ghost predicate GrowsOnlyWhenBusy(s: State, s': State) {
    |s'.pool.order| <= |s.pool.order| || forall id :: id in s'.pool.conns ==> s'.pool.conns[id].inUse
  }

  lemma AcquireSize(size: nat, s: State, r: nat, req: Request, grows: bool)
    requires SizeInv(size, s)
    ensures SizeInv(size, BeginAcquire(s, r, req, grows))
    ensures GrowsOnlyWhenBusy(s, BeginAcquire(s, r, req, grows))
  {
    if FirstIdle(s.pool, true, 0).None? && FirstIdle(s.pool, false, 0).None? {
      forall id | id in s.pool.conns ensures s.pool.conns[id].inUse {
        var i :| 0 <= i < |s.pool.order| && s.pool.order[i] == id;
        assert !IsIdle(s.pool, s.pool.order[i], s.pool.conns[id].connected);
      }
      AppendKeeps(s.pool, s.nextId);
    }
  }

  lemma EndSize(size: nat, s: State, r: nat, keep: bool, mark: Mark)
    requires SizeInv(size, s) && r in s.requests && s.requests[r].pc.Exchanging?
    ensures SizeInv(size, EndAttempt(s, size, r, keep, mark))
    ensures |EndAttempt(s, size, r, keep, mark).pool.order| <= |s.pool.order|
  {
    ReleaseMeaning(s.pool, size, s.requests[r].pc.slot, keep);
  }

  lemma ReacquireSize(size: nat, s: State, r: nat, grows: bool)
    requires SizeInv(size, s) && r in s.requests
    ensures SizeInv(size, Reacquire(s, r, grows)) && GrowsOnlyWhenBusy(s, Reacquire(s, r, grows))
  {
    AcquireSize(size, s, r, NextAttempt(s.requests[r]), grows);
  }

  lemma PopBackSize(size: nat, s: State, r: nat)
    requires SizeInv(size, s) && Enabled(s, ConnectFail(r))
    ensures SizeInv(size, Next(size, s, ConnectFail(r)))
    ensures |Next(size, s, ConnectFail(r)).pool.order| <= |s.pool.order|
  {
    if s.pool.order != [] { EraseKeeps(s.pool, |s.pool.order| - 1); }
  }

  lemma ActionSize(size: nat, s: State, a: Action)
    requires SizeInv(size, s) && Enabled(s, a)
    ensures SizeInv(size, Next(size, s, a)) && GrowsOnlyWhenBusy(s, Next(size, s, a))
  {
    match a
    case Arrive(r, grows) => AcquireSize(size, s, r, Request(0, Finished, [], 0), grows);
    case ConnectOk(r) =>
    case ConnectFail(r) => PopBackSize(size, s, r);
    case Respond(r, keep) => EndSize(size, s, r, keep, Responded);
    case TransportError(r, grows) =>
      EndSize(size, s, r, false, TransportFailed);
      ReacquireSize(size, EndAttempt(s, size, r, false, TransportFailed), r, grows);
    case OtherError(r) => EndSize(size, s, r, false, OtherFailed);
  }

  lemma BusyPoolSize(s: State)
    requires PoolInv(s)
    ensures |InUse(s)| <= |s.pool.order|
    ensures (forall id :: id in s.pool.conns ==> s.pool.conns[id].inUse) ==> |InUse(s)| == |s.pool.order|
  {
    DistinctSize(s.pool.order);
    SubsetSize(InUse(s), Elements(s.pool.order));
    if forall id :: id in s.pool.conns ==> s.pool.conns[id].inUse {
      assert InUse(s) == Elements(s.pool.order);
    }
  }

  lemma SubsetSize(a: set<nat>, b: set<nat>)
    requires a <= b
    ensures |a| <= |b|
  {
    assert b == a + (b - a);
  }

  /** The most slots in use at once, from s through the run. */
  function Peak(size: nat, s: State, run: seq<Action>): nat
    requires Legal(size, s, run)
    decreases |run|
  {
    if run == [] then |InUse(s)|
    else
      var later := Peak(size, Next(size, s, run[0]), run[1..]);
      if |InUse(s)| > later then |InUse(s)| else later
  }

  lemma {:induction false} SizeBoundsFrom(size: nat, s: State, run: seq<Action>, bound: nat)
    requires SizeInv(size, s) && Legal(size, s, run) && |s.pool.order| <= bound
    ensures SizeInv(size, Run(size, s, run))
    ensures |Run(size, s, run).pool.order| <= bound || |Run(size, s, run).pool.order| <= Peak(size, s, run)
    decreases |run|
  {
    if run != [] {
      var s' := Next(size, s, run[0]);
      ActionSize(size, s, run[0]);
      BusyPoolSize(s');
      PeakCoversStart(size, s', run[1..]);
      SizeBoundsFrom(size, s', run[1..], if |s'.pool.order| <= bound then bound else |s'.pool.order|);
    }
  }

  lemma PeakCoversStart(size: nat, s: State, run: seq<Action>)
    requires Legal(size, s, run)
    ensures |InUse(s)| <= Peak(size, s, run)
  {
  }

  /**
   In every run the pool exceeds its configured size only while every slot is in use, and never exceeds
   the most slots that were in use at once; with leases undisturbed, an idle pool is within its size.
   */
  lemma PoolSizeBounds(size: nat, run: seq<Action>)
    requires Legal(size, INIT, run)
    ensures var s := Run(size, INIT, run);
      && (|s.pool.order| > size ==> |InUse(s)| == |s.pool.order|)
      && |s.pool.order| <= Peak(size, INIT, run)
      && (AllUndisturbed(size, INIT, run) && (forall r :: r in s.requests ==> s.requests[r].pc.Finished?) ==>
            InUse(s) == {} && |s.pool.order| <= size)
  {
    var s := Run(size, INIT, run);
    SizeBoundsFrom(size, INIT, run, 0);
    BusyPoolSize(s);
    LeaseSafety(size, run);
    if AllUndisturbed(size, INIT, run) && forall r :: r in s.requests ==> s.requests[r].pc.Finished? {
      forall id: nat ensures !Held(s, id) {
      }
      assert InUse(s) == {};
    }
  }

  // ---------------------------------------------------------------------------------------------
  // Retries.  The trail of a request says the same in every run, disturbed connects included.

  function Sent(trail: seq<Mark>): nat {
    if trail == [] then 0 else Sent(trail[..|trail| - 1]) + if trail[|trail| - 1].Acquired? then 1 else 0
  }

  /** What the code tests before it sends a request for the first time. */
  predicate MayRetry(m: Mark) {
    m.Acquired? && (m.poolSize > 1 || !m.connected)
  }

  /** The first attempt ended in a transport error and had passed the test. */
  predicate Retried(trail: seq<Mark>) {
    |trail| >= 2 && MayRetry(trail[0]) && trail[1].TransportFailed?
  }

  predicate IsOutcome(m: Mark) {
    m.Responded? || m.TransportFailed? || m.OtherFailed?
  }

  /** What belongs to the current attempt. */
  function LastAttempt(trail: seq<Mark>): seq<Mark> {
    if Retried(trail) then trail[2..] else trail
  }

  /** The request is where its trail says: connecting, exchanging, or at the end of its last attempt. */
  predicate TrailMatches(req: Request) {
    var last := LastAttempt(req.trail);
    match req.pc
    case Connecting(_, _, _) => last == []
    case Undefined => last == []
    case Exchanging(_, _) => |last| == 1 && last[0].Acquired?
    case Finished => last == [AcquireFailed] || (|last| == 2 && last[0].Acquired? && IsOutcome(last[1]))
  }

  predicate TrailOk(req: Request) {
    && req.attempt == (if Retried(req.trail) then 1 else 0)
    && TrailMatches(req)
    && (req.pc.Exchanging? ==> (req.pc.retriable <==> req.attempt == 0 && MayRetry(LastAttempt(req.trail)[0])))
    && req.released == req.attempt + if |LastAttempt(req.trail)| == 2 then 1 else 0
  }

  ghost predicate TrailsOk(s: State) {
    forall r :: r in s.requests ==> TrailOk(s.requests[r])
  }

  /** An attempt may begin. */
  predicate Fresh(req: Request) {
    LastAttempt(req.trail) == [] && req.attempt == req.released == if Retried(req.trail) then 1 else 0
  }

  lemma StartTrail(s: State, r: nat, req: Request, id: nat)
    requires Fresh(req)
    ensures TrailOk(StartExchange(s, r, req, id).requests[r])
  {
    var trail := StartExchange(s, r, req, id).requests[r].trail;
    assert Retried(req.trail) ==> trail[2..] == [trail[2]];
  }

  lemma AcquireTrail(s: State, r: nat, req: Request, grows: bool)
    requires Fresh(req) && (forall k :: k in s.requests && k != r ==> TrailOk(s.requests[k]))
    ensures TrailsOk(BeginAcquire(s, r, req, grows))
  {
    match FirstIdle(s.pool, true, 0)
    case Some(i) => StartTrail(s.(pool := MarkInUse(s.pool, s.pool.order[i])), r, req, s.pool.order[i]);
    case None =>
  }

  lemma EndTrail(size: nat, s: State, r: nat, keep: bool, mark: Mark)
    requires TrailsOk(s) && r in s.requests && s.requests[r].pc.Exchanging? && IsOutcome(mark)
    requires mark.TransportFailed? ==> !s.requests[r].pc.retriable
    ensures TrailsOk(EndAttempt(s, size, r, keep, mark))
  {
    var req := s.requests[r];
    assert Retried(req.trail) ==> (req.trail + [mark])[2..] == req.trail[2..] + [mark];
  }

  lemma ReacquireTrail(s: State, r: nat, grows: bool)
    requires r in s.requests && Fresh(NextAttempt(s.requests[r]))
    requires forall k :: k in s.requests && k != r ==> TrailOk(s.requests[k])
    ensures TrailsOk(Reacquire(s, r, grows))
  {
    AcquireTrail(s, r, NextAttempt(s.requests[r]), grows);
  }

  lemma RetryTrail(size: nat, s: State, r: nat, grows: bool)
    requires TrailsOk(s) && r in s.requests && s.requests[r].pc.Exchanging? && s.requests[r].pc.retriable
    ensures TrailsOk(Reacquire(EndAttempt(s, size, r, false, TransportFailed), r, grows))
  {
    var s' := EndAttempt(s, size, r, false, TransportFailed);
    assert s'.requests[r].trail == [s.requests[r].trail[0], TransportFailed];
    ReacquireTrail(s', r, grows);
  }

  lemma ConnectOkTrail(size: nat, s: State, r: nat)
    requires TrailsOk(s) && Enabled(s, ConnectOk(r))
    ensures TrailsOk(Next(size, s, ConnectOk(r)))
  {
    var s' := s.(pool := MarkConnected(s.pool, s.requests[r].pc.slot));
    match Resolve(s', s.requests[r].pc.ref)
    case Some(id) => StartTrail(s', r, s.requests[r], id);
    case None =>
  }

  lemma ConnectFailTrail(size: nat, s: State, r: nat)
    requires TrailsOk(s) && Enabled(s, ConnectFail(r))
    ensures TrailsOk(Next(size, s, ConnectFail(r)))
  {
    var req := s.requests[r];
    assert Retried(req.trail) ==> (req.trail + [AcquireFailed])[2..] == [AcquireFailed];
  }

  lemma ActionTrail(size: nat, s: State, a: Action)
    requires TrailsOk(s) && Enabled(s, a)
    ensures TrailsOk(Next(size, s, a))
  {
    match a
    case Arrive(r, grows) => AcquireTrail(s, r, Request(0, Finished, [], 0), grows);
    case ConnectOk(r) => ConnectOkTrail(size, s, r);
    case ConnectFail(r) => ConnectFailTrail(size, s, r);
    case Respond(r, keep) => EndTrail(size, s, r, keep, Responded);
    case TransportError(r, grows) =>
      if s.requests[r].pc.retriable { RetryTrail(size, s, r, grows); }
      else { EndTrail(size, s, r, false, TransportFailed); }
    case OtherError(r) => EndTrail(size, s, r, false, OtherFailed);
  }

  lemma {:induction false} RunTrails(size: nat, s: State, run: seq<Action>)
    requires TrailsOk(s) && Legal(size, s, run)
    ensures TrailsOk(Run(size, s, run))
    decreases |run|
  {
    if run != [] {
      ActionTrail(size, s, run[0]);
      RunTrails(size, Next(size, s, run[0]), run[1..]);
    }
  }

  lemma SentOfShort(t: seq<Mark>)
    requires |t| <= 4
    ensures Sent(t) == (if |t| > 0 && t[0].Acquired? then 1 else 0) + (if |t| > 1 && t[1].Acquired? then 1 else 0)
                     + (if |t| > 2 && t[2].Acquired? then 1 else 0) + (if |t| > 3 && t[3].Acquired? then 1 else 0)
  {
    if t != [] { SentOfShort(t[..|t| - 1]); }
  }

  lemma TrailMeaning(req: Request)
    requires TrailOk(req)
    ensures Sent(req.trail) <= 2
    ensures Sent(req.trail) == 2 <==> |req.trail| >= 3 && Retried(req.trail) && req.trail[2].Acquired?
    ensures req.released == Sent(req.trail) - if req.pc.Exchanging? then 1 else 0
    ensures forall i :: 0 <= i < |req.trail| && IsOutcome(req.trail[i]) ==>
      (i == |req.trail| - 1 && req.pc.Finished?) || (i == 1 && Retried(req.trail))
  {
    var t := req.trail;
    assert |t| <= 4;
    SentOfShort(t);
    if Retried(t) && |t| > 2 { assert t[2..][0] == t[2]; }
    if Retried(t) && |t| > 3 { assert t[2..][1] == t[3]; }
  }

  /** With undisturbed connects, every request is sent on a connected slot. */
  ghost predicate SentConnected(s: State) {
    forall r, i :: r in s.requests && 0 <= i < |s.requests[r].trail| && s.requests[r].trail[i].Acquired? ==>
      s.requests[r].trail[i].connected
  }

  lemma AcquireConnected(s: State, r: nat, req: Request, grows: bool)
    requires SentConnected(s) && (forall i :: 0 <= i < |req.trail| && req.trail[i].Acquired? ==> req.trail[i].connected)
    ensures SentConnected(BeginAcquire(s, r, req, grows))
  {
  }

  lemma RetryConnected(size: nat, s: State, r: nat, grows: bool)
    requires SentConnected(s) && r in s.requests && s.requests[r].pc.Exchanging?
    ensures SentConnected(Reacquire(EndAttempt(s, size, r, false, TransportFailed), r, grows))
  {
    var s' := EndAttempt(s, size, r, false, TransportFailed);
    assert SentConnected(s');
    AcquireConnected(s', r, NextAttempt(s'.requests[r]), grows);
  }

  lemma ConnectOkConnected(size: nat, s: State, r: nat)
    requires LeaseInv(s) && SentConnected(s) && Enabled(s, ConnectOk(r)) && Undisturbed(s, ConnectOk(r))
    ensures SentConnected(Next(size, s, ConnectOk(r)))
  {
  }

  lemma ActionConnected(size: nat, s: State, a: Action)
    requires LeaseInv(s) && SentConnected(s) && Enabled(s, a) && Undisturbed(s, a)
    ensures SentConnected(Next(size, s, a))
  {
    match a
    case Arrive(r, grows) => AcquireConnected(s, r, Request(0, Finished, [], 0), grows);
    case ConnectOk(r) => ConnectOkConnected(size, s, r);
    case TransportError(r, grows) => RetryConnected(size, s, r, grows);
    case _ =>
  }

  lemma {:induction false} RunConnected(size: nat, s: State, run: seq<Action>)
    requires LeaseInv(s) && SentConnected(s) && Legal(size, s, run) && AllUndisturbed(size, s, run)
    ensures LeaseInv(Run(size, s, run)) && SentConnected(Run(size, s, run))
    decreases |run|
  {
    if run != [] {
      ActionLease(size, s, run[0]);
      ActionConnected(size, s, run[0]);
      RunConnected(size, Next(size, s, run[0]), run[1..]);
    }
  }

  /**
   In every run a request makes a second attempt exactly when the first failed in transport with more than one slot
   in the pool or on an unconnected slot; any other outcome ends it, and so does any outcome of the second attempt.
   It is sent at most twice and releases what it acquired.  With undisturbed connects the slot is always connected,
   so the number of slots alone decides.
   */
  lemma ExecuteOutcome(size: nat, run: seq<Action>, r: nat)
    requires Legal(size, INIT, run) && r in Run(size, INIT, run).requests
    ensures var req := Run(size, INIT, run).requests[r];
      && (req.attempt == 1 <==> Retried(req.trail)) && req.attempt <= 1
      && TrailMatches(req)
      && Sent(req.trail) <= 2
      && (Sent(req.trail) == 2 <==> |req.trail| >= 3 && Retried(req.trail) && req.trail[2].Acquired?)
      && (forall i :: 0 <= i < |req.trail| && IsOutcome(req.trail[i]) ==>
            (i == |req.trail| - 1 && req.pc.Finished?) || (i == 1 && Retried(req.trail)))
      && req.released == Sent(req.trail) - (if req.pc.Exchanging? then 1 else 0)
      && (AllUndisturbed(size, INIT, run) ==>
            && !req.pc.Undefined?
            && (Retried(req.trail) <==>
                  && |req.trail| >= 2 && req.trail[0].Acquired? && req.trail[1].TransportFailed?
                  && req.trail[0].poolSize > 1))
  {
    RunTrails(size, INIT, run);
    TrailMeaning(Run(size, INIT, run).requests[r]);
    if AllUndisturbed(size, INIT, run) { RunConnected(size, INIT, run); }
  }

  // ---------------------------------------------------------------------------------------------
  // The retry test looks at the pool's size, not at whether the connection was reused

  /** Idle slots and slots in an exchange have been used, and slots being connected have not. */
  ghost predicate UsedInv(s: State) {
    && (forall id :: id in s.used ==> id < s.nextId)
    && (forall id :: id in s.pool.conns && !s.pool.conns[id].inUse ==> id in s.used)
    && (forall r :: r in s.requests && s.requests[r].pc.Exchanging? ==> s.requests[r].pc.slot in s.used)
    && (forall r :: r in s.requests && s.requests[r].pc.Connecting? ==> s.requests[r].pc.slot !in s.used)
  }

  lemma AcquireUsed(s: State, r: nat, req: Request, grows: bool)
    requires LeaseInv(s) && UsedInv(s) && (r in s.requests ==> Holds(s.requests[r]).None?)
    ensures UsedInv(BeginAcquire(s, r, req, grows))
  {
    NoIdleUnconnected(s, r, req, grows);
  }

  lemma EndUsed(size: nat, s: State, r: nat, keep: bool, mark: Mark)
    requires LeaseInv(s) && UsedInv(s) && r in s.requests && s.requests[r].pc.Exchanging?
    ensures UsedInv(EndAttempt(s, size, r, keep, mark))
  {
    ReleaseMeaning(s.pool, size, s.requests[r].pc.slot, keep);
  }

  lemma ReacquireUsed(s: State, r: nat, grows: bool)
    requires LeaseInv(s) && UsedInv(s) && r in s.requests && s.requests[r].pc.Finished?
    ensures UsedInv(Reacquire(s, r, grows))
  {
    AcquireUsed(s, r, NextAttempt(s.requests[r]), grows);
  }

  lemma RetryUsed(size: nat, s: State, r: nat, grows: bool)
    requires LeaseInv(s) && UsedInv(s) && r in s.requests && s.requests[r].pc.Exchanging?
    ensures UsedInv(Reacquire(EndAttempt(s, size, r, false, TransportFailed), r, grows))
  {
    ReleaseLease(size, s, r, false, TransportFailed);
    EndUsed(size, s, r, false, TransportFailed);
    ReacquireUsed(EndAttempt(s, size, r, false, TransportFailed), r, grows);
  }

  lemma ConnectOkUsed(size: nat, s: State, r: nat)
    requires LeaseInv(s) && UsedInv(s) && Enabled(s, ConnectOk(r)) && Undisturbed(s, ConnectOk(r))
    ensures UsedInv(Next(size, s, ConnectOk(r)))
  {
  }

  lemma ConnectFailUsed(size: nat, s: State, r: nat)
    requires LeaseInv(s) && UsedInv(s) && Enabled(s, ConnectFail(r)) && Undisturbed(s, ConnectFail(r))
    ensures UsedInv(Next(size, s, ConnectFail(r)))
  {
    EraseKeeps(s.pool, |s.pool.order| - 1);
  }

  lemma ActionUsed(size: nat, s: State, a: Action)
    requires LeaseInv(s) && UsedInv(s) && Enabled(s, a) && Undisturbed(s, a)
    ensures UsedInv(Next(size, s, a))
  {
    match a
    case Arrive(r, grows) => AcquireUsed(s, r, Request(0, Finished, [], 0), grows);
    case Respond(r, keep) => EndUsed(size, s, r, keep, Responded);
    case TransportError(r, grows) =>
      EndUsed(size, s, r, false, TransportFailed);
      RetryUsed(size, s, r, grows);
    case OtherError(r) => EndUsed(size, s, r, false, OtherFailed);
    case ConnectOk(r) => ConnectOkUsed(size, s, r);
    case ConnectFail(r) => ConnectFailUsed(size, s, r);
  }

  lemma {:induction false} RunUsed(size: nat, s: State, run: seq<Action>)
    requires LeaseInv(s) && UsedInv(s) && Legal(size, s, run) && AllUndisturbed(size, s, run)
    ensures LeaseInv(Run(size, s, run)) && UsedInv(Run(size, s, run))
    decreases |run|
  {
    if run != [] {
      ActionLease(size, s, run[0]);
      ActionUsed(size, s, run[0]);
      RunUsed(size, Next(size, s, run[0]), run[1..]);
    }
  }

  /** An acquire that does not suspend has been given a used slot. */
  predicate AtOnceReused(before: seq<Mark>, after: seq<Mark>) {
    after == before || (|after| == |before| + 1 && after[|before|].Acquired? && after[|before|].reused)
  }

  lemma AcquireReuses(s: State, r: nat, req: Request, grows: bool)
    requires LeaseInv(s) && UsedInv(s)
    ensures AtOnceReused(req.trail, BeginAcquire(s, r, req, grows).requests[r].trail)
  {
    NoIdleUnconnected(s, r, req, grows);
  }

  lemma RetryReuses(size: nat, s: State, r: nat, grows: bool)
    requires LeaseInv(s) && UsedInv(s) && Enabled(s, TransportError(r, grows))
    ensures AtOnceReused(s.requests[r].trail + [TransportFailed],
                         Next(size, s, TransportError(r, grows)).requests[r].trail)
  {
    var s' := EndAttempt(s, size, r, false, TransportFailed);
    ReleaseLease(size, s, r, false, TransportFailed);
    EndUsed(size, s, r, false, TransportFailed);
    AcquireReuses(s', r, NextAttempt(s'.requests[r]), grows);
  }

  lemma ConnectionIsNew(size: nat, s: State, r: nat)
    requires LeaseInv(s) && UsedInv(s) && Enabled(s, ConnectOk(r)) && Undisturbed(s, ConnectOk(r))
    ensures var before, after := s.requests[r].trail, Next(size, s, ConnectOk(r)).requests[r].trail;
      |after| == |before| + 1 && after[|before|].Acquired? && !after[|before|].reused
  {
  }

  /** The request that an action moves is marked reused just when the action ended no connect. */
  predicate MarksReuse(size: nat, s: State, a: Action)
    requires Enabled(s, a)
  {
    var before := if a.r in s.requests then s.requests[a.r].trail else [];
    var after := Next(size, s, a).requests[a.r].trail;
    match a
    case Arrive(_, _) => AtOnceReused([], after)
    case TransportError(_, _) => AtOnceReused(before + [TransportFailed], after)
    case ConnectOk(_) => |after| == |before| + 1 && after[|before|].Acquired? && !after[|before|].reused
    case ConnectFail(_) => after == before + [AcquireFailed]
    case Respond(_, _) => after == before + [Responded]
    case OtherError(_) => after == before + [OtherFailed]
  }

  lemma StepReuse(size: nat, s: State, a: Action)
    requires LeaseInv(s) && UsedInv(s) && Enabled(s, a) && Undisturbed(s, a)
    ensures MarksReuse(size, s, a)
  {
    match a
    case Arrive(r, grows) => AcquireReuses(s, r, Request(0, Finished, [], 0), grows);
    case TransportError(r, grows) => RetryReuses(size, s, r, grows);
    case ConnectOk(r) => ConnectionIsNew(size, s, r);
    case _ =>
  }

  /** What an arriving or retrying request gets at once is a used slot; what it connects is an unused one. */
  lemma ReusedIffNotConnected(size: nat, run: seq<Action>, a: Action)
    requires Legal(size, INIT, run) && AllUndisturbed(size, INIT, run)
    requires Enabled(Run(size, INIT, run), a) && Undisturbed(Run(size, INIT, run), a)
    ensures MarksReuse(size, Run(size, INIT, run), a)
  {
    RunUsed(size, INIT, run);
    StepReuse(size, Run(size, INIT, run), a);
  }

  /**
   The comment's rule is that a transport error is retried iff the connection was reused.  After a first transport
   failure the code follows it exactly when the pool held more than one slot iff the connection was reused.
   */
  lemma RetryFollowsReuseIff(size: nat, run: seq<Action>, r: nat)
    requires Legal(size, INIT, run) && AllUndisturbed(size, INIT, run) && r in Run(size, INIT, run).requests
    ensures var req := Run(size, INIT, run).requests[r];
      |req.trail| >= 2 && req.trail[0].Acquired? && req.trail[1].TransportFailed? ==>
        ((req.attempt == 1 <==> req.trail[0].reused) <==> (req.trail[0].poolSize > 1 <==> req.trail[0].reused))
  {
    ExecuteOutcome(size, run, r);
  }

  // ---------------------------------------------------------------------------------------------
  // Requests one after another

  ghost predicate AllFinished(s: State) {
    forall r :: r in s.requests ==> s.requests[r].pc.Finished?
  }

  /** No request arrives before the previous one has finished. */
  ghost predicate Sequential(size: nat, s: State, run: seq<Action>)
    requires Legal(size, s, run)
    decreases |run|
  {
    run == [] || ((run[0].Arrive? ==> AllFinished(s)) && Sequential(size, Next(size, s, run[0]), run[1..]))
  }

  ghost predicate OneSlot(s: State) {
    && |s.pool.order| <= 1
    && forall r :: r in s.requests ==>
         s.requests[r].attempt == 0 && (s.requests[r].pc.Exchanging? ==> !s.requests[r].pc.retriable)
  }

  /** In a pool of one slot a request that connects is alone. */
  lemma SingleSlotIsExclusive(s: State, a: Action)
    requires LeasesMatch(s) && WellFormed(s.pool) && OneSlot(s) && Enabled(s, a) && (a.Arrive? ==> AllFinished(s))
    ensures Exclusive(s, a)
  {
  }

  lemma SequentialArrival(s: State, r: nat, grows: bool)
    requires LeaseInv(s) && OneSlot(s) && AllFinished(s)
    ensures OneSlot(BeginAcquire(s, r, Request(0, Finished, [], 0), grows))
  {
    NoIdleUnconnected(s, r, Request(0, Finished, [], 0), grows);
    if s.pool.order != [] {
      var id := s.pool.order[0];
      assert !Held(s, id);
      assert IsIdle(s.pool, id, true);
    }
  }

  lemma StepOneSlot(size: nat, s: State, a: Action)
    requires LeaseInv(s) && OneSlot(s) && Enabled(s, a) && (a.Arrive? ==> AllFinished(s))
    ensures OneSlot(Next(size, s, a))
  {
    match a
    case Arrive(r, grows) => SequentialArrival(s, r, grows);
    case ConnectOk(r) =>
    case ConnectFail(r) =>
    case Respond(r, keep) => ReleaseMeaning(s.pool, size, s.requests[r].pc.slot, keep);
    case TransportError(r, _) => ReleaseMeaning(s.pool, size, s.requests[r].pc.slot, false);
    case OtherError(r) => ReleaseMeaning(s.pool, size, s.requests[r].pc.slot, false);
  }

  lemma SequentialStep(size: nat, s: State, a: Action)
    requires LeaseInv(s) && RefsInv(s) && OneSlot(s) && Enabled(s, a) && (a.Arrive? ==> AllFinished(s))
    ensures Undisturbed(s, a) && LeaseInv(Next(size, s, a)) && RefsInv(Next(size, s, a)) && OneSlot(Next(size, s, a))
  {
    SingleSlotIsExclusive(s, a);
    ExclusiveStep(size, s, a);
    ActionLease(size, s, a);
    StepOneSlot(size, s, a);
  }

  lemma {:induction false} SequentialFrom(size: nat, s: State, run: seq<Action>)
    requires LeaseInv(s) && RefsInv(s) && OneSlot(s) && Legal(size, s, run) && Sequential(size, s, run)
    ensures AllUndisturbed(size, s, run) && OneSlot(Run(size, s, run))
    decreases |run|
  {
    if run != [] {
      SequentialStep(size, s, run[0]);
      SequentialFrom(size, Next(size, s, run[0]), run[1..]);
    }
  }

  /** Requests made one after another share one slot, and none is ever retried, reused connection or not. */
  lemma SequentialRequestsAreNotRetried(size: nat, run: seq<Action>)
    requires Legal(size, INIT, run) && Sequential(size, INIT, run)
    ensures AllUndisturbed(size, INIT, run)
    ensures var s := Run(size, INIT, run);
      && |s.pool.order| <= 1
      && forall r :: r in s.requests ==> s.requests[r].attempt == 0 && Sent(s.requests[r].trail) <= 1
  {
    SequentialFrom(size, INIT, run);
    var s := Run(size, INIT, run);
    forall r | r in s.requests ensures s.requests[r].attempt == 0 && Sent(s.requests[r].trail) <= 1 {
      ExecuteOutcome(size, run, r);
    }
  }

  // ---------------------------------------------------------------------------------------------
  // Both ways of departing from the comment's rule

  const FIRST_ONLY := Request(0, Exchanging(0, false), [Acquired(1, true, false)], 0)

  /** Request 1 connects the first slot; `rest` continues while it exchanges. */
  lemma FirstConnects(size: nat, s: State, rest: seq<Action>) returns (run: seq<Action>)
    requires s == State(Pool([0], map[0 := Conn(true, true)]), 1, 1, map[1 := FIRST_ONLY], {0})
    requires Legal(size, s, rest)
    ensures Legal(size, INIT, run) && Run(size, INIT, run) == Run(size, s, rest)
  {
    var s1 := State(Pool([0], map[0 := Conn(true, false)]), 1, 1,
                    map[1 := Request(0, Connecting(0, Ref(1, 0), true), [], 0)], {});
    assert Next(size, INIT, Arrive(1, true)) == s1;
    var s2 := Next(size, s1, ConnectOk(1));
    assert s2.requests[1].trail == [Acquired(1, true, false)];
    assert s2.pool.conns == s.pool.conns && s2.requests == s.requests && s2.used == s.used;
    Precede(size, s1, ConnectOk(1), rest);
    Precede(size, INIT, Arrive(1, true), [ConnectOk(1)] + rest);
    run := [Arrive(1, true)] + ([ConnectOk(1)] + rest);
  }

  /** A connection made for this very request fails, and the request is tried again. */
  lemma FreshConnectionIsRetried(size: nat) returns (run: seq<Action>)
    ensures Legal(size, INIT, run) && 2 in Run(size, INIT, run).requests
    ensures Run(size, INIT, run).requests[2].trail == [Acquired(2, true, false), TransportFailed]
    ensures Run(size, INIT, run).requests[2].pc.Connecting? && Run(size, INIT, run).requests[2].attempt == 1
  {
    var s0 := State(Pool([0], map[0 := Conn(true, true)]), 1, 1, map[1 := FIRST_ONLY], {0});
    var s1 := Next(size, s0, Arrive(2, true));
    assert s1 == State(Pool([0, 1], map[0 := Conn(true, true), 1 := Conn(true, false)]), 2, 2,
                       map[1 := FIRST_ONLY, 2 := Request(0, Connecting(1, Ref(2, 1), true), [], 0)], {0});
    var s2 := Next(size, s1, ConnectOk(2));
    assert s2.pool.conns == map[0 := Conn(true, true), 1 := Conn(true, true)];
    assert s2.requests[2].trail == [Acquired(2, true, false)];
    assert s2.requests == map[1 := FIRST_ONLY, 2 := Request(0, Exchanging(1, true), [Acquired(2, true, false)], 0)];
    RetryFresh(size, s2);
    Precede(size, s2, TransportError(2, false), []);
    Precede(size, s1, ConnectOk(2), [TransportError(2, false)] + []);
    var rest := [ConnectOk(2)] + ([TransportError(2, false)] + []);
    Precede(size, s0, Arrive(2, true), rest);
    run := FirstConnects(size, s0, [Arrive(2, true)] + rest);
  }

  lemma RetryFresh(size: nat, s: State)
    requires s == State(Pool([0, 1], map[0 := Conn(true, true), 1 := Conn(true, true)]), 2, 2,
                        map[1 := FIRST_ONLY, 2 := Request(0, Exchanging(1, true), [Acquired(2, true, false)], 0)],
                        {0, 1})
    ensures var req := Next(size, s, TransportError(2, false)).requests[2];
      req.trail == [Acquired(2, true, false), TransportFailed] && req.pc.Connecting? && req.attempt == 1
  {
    var s' := EndAttempt(s, size, 2, false, TransportFailed);
    assert Position(s.pool.order, 1, 0) == Some(1);
    assert s'.pool == Pool([0], map[0 := Conn(true, true)]);
  }

  /** A kept-alive connection fails on reuse in a pool of one, and the request is given up. */
  lemma ReusedConnectionIsNotRetried(size: nat) returns (run: seq<Action>)
    requires size >= 1
    ensures Legal(size, INIT, run) && 2 in Run(size, INIT, run).requests
    ensures Run(size, INIT, run).requests[2] == Request(0, Finished, [Acquired(1, true, true), TransportFailed], 1)
  {
    var s0 := State(Pool([0], map[0 := Conn(true, true)]), 1, 1, map[1 := FIRST_ONLY], {0});
    var done := Request(0, Finished, [Acquired(1, true, false), Responded], 1);
    var s1 := Next(size, s0, Respond(1, true));
    assert s1.requests[1].trail == [Acquired(1, true, false), Responded];
    assert s1.pool.conns == map[0 := Conn(false, true)] && s1.requests == map[1 := done];
    var s2 := Next(size, s1, Arrive(2, false));
    assert s2.pool.conns == map[0 := Conn(true, true)];
    assert s2.requests[2].trail == [Acquired(1, true, true)];
    assert s2.requests == map[1 := done, 2 := Request(0, Exchanging(0, false), [Acquired(1, true, true)], 0)];
    Precede(size, s2, TransportError(2, false), []);
    Precede(size, s1, Arrive(2, false), [TransportError(2, false)] + []);
    var rest := [Arrive(2, false)] + ([TransportError(2, false)] + []);
    Precede(size, s0, Respond(1, true), rest);
    run := FirstConnects(size, s0, [Respond(1, true)] + rest);
  }
}
