/**
 Queued dispatch: the I/O thread pushes every message into the ring buffer, a consumer thread pops and
 dispatches, and the stopping thread clears `running`, after which the consumer drains the queue and exits.
 Both stream classes run this protocol.

 The stopping thread's release store and the consumer's acquire load of `running` order the pushes that happen
 before the store before the consumer's later head loads; `CheckRunning` records that.  Which of the completed
 pushes happen before the store depends on what else synchronises the I/O thread with the stopping thread, so
 their number is part of the label `ClearRunning`: all of them if the I/O thread was stopped first, else possibly
 none.
 */
module Dispatch {
  import opened Wrappers
  import opened Counters
  import opened SpscProtocol

  datatype Phase<T> =
    | Polling
    | Popping(draining: bool)
    | Dispatching(draining: bool, msg: T)
    | Exited

  /** `clearedAt` is the number of pushes ordered before the store that cleared `running`. */
  datatype Pipeline<T> = Pipeline(
    q: State<T>,
    running: bool,
    clearedAt: Option<nat>,
    phase: Phase<T>,
    joined: bool,
    delivered: seq<T>,
    dispatched: seq<T>)

  datatype Action<T> =
    | Deliver(msg: T)
    | Push(step: Step<T>)
    | CheckRunning
    | Pop(step: Step<T>)
    | Dispatch
    | ClearRunning(ordered: nat)
    | Join

  function Start<T>(c: Word): Pipeline<T> {
    Pipeline(Init(c), true, None, Polling, false, [], [])
  }

  predicate CanDo<T>(p: Pipeline<T>, a: Action<T>) {
    match a
    case Deliver(_) => p.q.producer.PushReady?
    case Push(step) => (step.LoadTail? || step.WriteSlot? || step.StoreHead?) && Enabled(p.q, step)
    case CheckRunning => p.phase.Polling?
    case Pop(step) =>
      && p.phase.Popping?
      && (step.LoadOwnTail? || step.LoadHead? || step.ReadSlot? || step.StoreTail?)
      && Enabled(p.q, step)
    case Dispatch => p.phase.Dispatching?
    case ClearRunning(ordered) => p.running && ordered <= |p.q.accepted|
    case Join => !p.running && p.phase.Exited?
  }

  /** The consumer's phase once a micro-step of try_pop has led to queue state q'. */
  function AfterPop<T>(phase: Phase<T>, q: State<T>, step: Step<T>, q': State<T>): Phase<T>
    requires phase.Popping?
  {
    match step
    case LoadHead(_) =>
      if !q'.consumer.PopReady? then phase else if phase.draining then Exited else Polling
    case StoreTail => if q.consumer.PopSlotRead? then Dispatching(phase.draining, q.consumer.value) else phase
    case _ => phase
  }

  function Do<T>(c: Word, p: Pipeline<T>, a: Action<T>): Pipeline<T>
    requires c > 0 && CanDo(p, a)
  {
    match a
    case Deliver(msg) => p.(q := Next(c, p.q, LoadOwnHead(msg)), delivered := p.delivered + [msg])
    case Push(step) => p.(q := Next(c, p.q, step))
    case CheckRunning =>
      if p.running then p.(phase := Popping(false))
      else
        var seen := if p.clearedAt.Some? && p.clearedAt.value > p.q.seenHead then p.clearedAt.value else p.q.seenHead;
        p.(phase := Popping(true), q := p.q.(seenHead := seen))
    case Pop(step) =>
      var q' := Next(c, p.q, step);
      p.(q := q', phase := AfterPop(p.phase, p.q, step, q'))
    case Dispatch =>
      p.(dispatched := p.dispatched + [p.phase.msg], phase := if p.phase.draining then Popping(true) else Polling)
    case ClearRunning(ordered) => p.(running := false, clearedAt := Some(ordered))
    case Join => p.(joined := true)
  }

  predicate CanRun<T>(c: Word, p: Pipeline<T>, actions: seq<Action<T>>)
    requires c > 0
    decreases |actions|
  {
    actions == [] || (CanDo(p, actions[0]) && CanRun(c, Do(c, p, actions[0]), actions[1..]))
  }

  function RunAll<T>(c: Word, p: Pipeline<T>, actions: seq<Action<T>>): Pipeline<T>
    requires c > 0 && CanRun(c, p, actions)
    decreases |actions|
  {
    if actions == [] then p else RunAll(c, Do(c, p, actions[0]), actions[1..])
  }

  // ---------------------------------------------------------------------------------------------
  // The invariant

  /** The messages of every push that has returned, accepted or not, in order. */
  function Attempts<T>(log: seq<Event<T>>): seq<T> {
    if log == [] then []
    else
      var e := log[|log| - 1];
      Attempts(log[..|log| - 1]) + if e.Pushed? || e.PushRejected? then [e.value] else []
  }

  function Rejections<T>(log: seq<Event<T>>): nat {
    if log == [] then 0
    else Rejections(log[..|log| - 1]) + if log[|log| - 1].PushRejected? then 1 else 0
  }

  function InFlight<T>(q: State<T>): seq<T> {
    if q.producer.PushReady? then [] else [q.producer.value]
  }

  ghost predicate QueueInv<T>(c: Word, q: State<T>) {
    Inv(c, q) && LogInv(c, q, false)
  }

  predicate Drains<T>(phase: Phase<T>) {
    phase.Exited? || (phase.Popping? && phase.draining) || (phase.Dispatching? && phase.draining)
  }

  ghost predicate PhaseInv<T>(p: Pipeline<T>) {
    && (p.running <==> p.clearedAt.None?)
    && (p.clearedAt.Some? ==> p.clearedAt.value <= |p.q.accepted|)
    && (Drains(p.phase) ==> p.clearedAt.Some? && p.clearedAt.value <= p.q.seenHead)
    && (!p.phase.Popping? ==> p.q.consumer.PopReady?)
    && (p.phase.Exited? ==> |p.q.popped| == p.q.seenHead)
    && (p.joined ==> p.phase.Exited?)
    && p.q.popped == p.dispatched + if p.phase.Dispatching? then [p.phase.msg] else []
  }

  ghost predicate PipelineInv<T>(c: Word, p: Pipeline<T>) {
    QueueInv(c, p.q) && PhaseInv(p) && p.delivered == Attempts(p.q.log) + InFlight(p.q)
  }

  lemma AttemptsAppend<T>(log: seq<Event<T>>, e: Event<T>)
    ensures Attempts(log + [e]) == Attempts(log) + if e.Pushed? || e.PushRejected? then [e.value] else []
  {
    assert (log + [e])[..|log + [e]| - 1] == log;
  }

  lemma QueueStep<T>(c: Word, q: State<T>, step: Step<T>)
    requires c > 0 && QueueInv(c, q) && Enabled(q, step)
    ensures QueueInv(c, Next(c, q, step))
  {
    StepInv(c, q, step);
    StepLog(c, q, step, false);
  }

  lemma AttemptsStep<T>(c: Word, q: State<T>, step: Step<T>)
    requires c > 0 && Enabled(q, step)
    ensures Attempts(Next(c, q, step).log) + InFlight(Next(c, q, step))
         == Attempts(q.log) + InFlight(q) + if step.LoadOwnHead? then [step.value] else []
  {
    match step
    case LoadTail(observed) => AttemptsAppend(q.log, PushRejected(q.producer.value));
    case StoreHead => AttemptsAppend(q.log, Pushed(q.producer.value));
    case LoadHead(_) => AttemptsAppend(q.log, PopEmpty);
    case StoreTail => AttemptsAppend(q.log, Popped(q.consumer.value));
    case _ =>
  }

  lemma PopPhase<T>(c: Word, p: Pipeline<T>, step: Step<T>)
    requires c > 0 && PipelineInv(c, p) && CanDo(p, Pop(step))
    ensures PhaseInv(Do(c, p, Pop(step)))
  {
    match step
    case LoadHead(observed) => EmptyIsGenuineIffFresh(c, p.q, observed);
    case ReadSlot => ReadIsSafe(c, p.q);
    case _ =>
  }

  lemma PushPhase<T>(c: Word, p: Pipeline<T>, a: Action<T>)
    requires c > 0 && PipelineInv(c, p) && CanDo(p, a) && (a.Deliver? || a.Push?)
    ensures PhaseInv(Do(c, p, a))
  {
    StepMonotone(c, p.q, if a.Deliver? then LoadOwnHead(a.msg) else a.step);
  }

  lemma ActionInv<T>(c: Word, p: Pipeline<T>, a: Action<T>)
    requires c > 0 && PipelineInv(c, p) && CanDo(p, a)
    ensures PipelineInv(c, Do(c, p, a))
  {
    if a.Deliver? || a.Push? || a.Pop? {
      var step := if a.Deliver? then LoadOwnHead(a.msg) else a.step;
      QueueStep(c, p.q, step);
      AttemptsStep(c, p.q, step);
      if a.Pop? { PopPhase(c, p, step); } else { PushPhase(c, p, a); }
    }
  }

  lemma {:induction false} RunAllInv<T>(c: Word, p: Pipeline<T>, actions: seq<Action<T>>)
    requires c > 0 && PipelineInv(c, p) && CanRun(c, p, actions)
    ensures PipelineInv(c, RunAll(c, p, actions))
    decreases |actions|
  {
    if actions != [] {
      ActionInv(c, p, actions[0]);
      RunAllInv(c, Do(c, p, actions[0]), actions[1..]);
    }
  }

  lemma {:induction false} AttemptsSplit<T>(log: seq<Event<T>>)
    ensures |Attempts(log)| == |PushedValues(log)| + Rejections(log)
    ensures Rejections(log) == 0 ==> Attempts(log) == PushedValues(log)
  {
    if log != [] { AttemptsSplit(log[..|log| - 1]); }
  }

  // ---------------------------------------------------------------------------------------------
  // When the queue makes no difference

  /** Pushes accepted since the last pop that found the queue empty. */
  function PushedSinceEmpty<T>(log: seq<Event<T>>): nat {
    if log == [] || log[|log| - 1].PopEmpty? then 0
    else PushedSinceEmpty(log[..|log| - 1]) + if log[|log| - 1].Pushed? then 1 else 0
  }

  /** The last load of the head in this run, if any, returned its newest value. */
  predicate LastHeadLoadFresh<T>(c: Word, p: Pipeline<T>, actions: seq<Action<T>>, soFar: bool)
    requires c > 0 && CanRun(c, p, actions)
    decreases |actions|
  {
    if actions == [] then soFar
    else LastHeadLoadFresh(c, Do(c, p, actions[0]), actions[1..], FreshAfter(p, actions[0], soFar))
  }

  predicate FreshAfter<T>(p: Pipeline<T>, a: Action<T>, soFar: bool) {
    if a.Pop? && a.step.LoadHead? then a.step.observed == |p.q.accepted| else soFar
  }

  /** What the exited consumer has missed is what a stale last load hid and what was pushed after it. */
  ghost predicate MissedInv<T>(p: Pipeline<T>, newest: bool) {
    p.phase.Exited? ==>
      && p.q.seenHead + PushedSinceEmpty(p.q.log) <= |p.q.accepted|
      && (newest <==> p.q.seenHead + PushedSinceEmpty(p.q.log) == |p.q.accepted|)
  }

  ghost predicate RejectedInv<T>(c: Word, q: State<T>) {
    Rejections(q.log) > 0 ==> |q.accepted| >= c
  }

  lemma CountsAppend<T>(log: seq<Event<T>>, e: Event<T>)
    ensures Rejections(log + [e]) == Rejections(log) + if e.PushRejected? then 1 else 0
    ensures PushedSinceEmpty(log + [e])
         == if e.PopEmpty? then 0 else PushedSinceEmpty(log) + if e.Pushed? then 1 else 0
  {
    assert (log + [e])[..|log + [e]| - 1] == log;
  }

  lemma RejectedStep<T>(c: Word, q: State<T>, step: Step<T>)
    requires c > 0 && Inv(c, q) && RejectedInv(c, q) && Enabled(q, step)
    ensures RejectedInv(c, Next(c, q, step))
  {
    match step
    case LoadTail(observed) =>
      RejectionIsGenuineIffFresh(c, q, observed);
      CountsAppend(q.log, PushRejected(q.producer.value));
    case StoreHead => CountsAppend(q.log, Pushed(q.producer.value));
    case LoadHead(_) => CountsAppend(q.log, PopEmpty);
    case StoreTail => CountsAppend(q.log, Popped(q.consumer.value));
    case _ =>
  }

  lemma MissedStep<T>(c: Word, p: Pipeline<T>, a: Action<T>, newest: bool)
    requires c > 0 && MissedInv(p, newest) && CanDo(p, a)
    ensures MissedInv(Do(c, p, a), FreshAfter(p, a, newest))
  {
    if a.Push? && a.step.LoadTail? { CountsAppend(p.q.log, PushRejected(p.q.producer.value)); }
    if a.Push? && a.step.StoreHead? { CountsAppend(p.q.log, Pushed(p.q.producer.value)); }
    if a.Pop? && a.step.LoadHead? { CountsAppend(p.q.log, PopEmpty); }
  }

  lemma {:induction false} RunMissed<T>(c: Word, p: Pipeline<T>, actions: seq<Action<T>>, newest: bool)
    requires c > 0 && PipelineInv(c, p) && MissedInv(p, newest) && RejectedInv(c, p.q) && CanRun(c, p, actions)
    ensures PipelineInv(c, RunAll(c, p, actions)) && RejectedInv(c, RunAll(c, p, actions).q)
    ensures MissedInv(RunAll(c, p, actions), LastHeadLoadFresh(c, p, actions, newest))
    decreases |actions|
  {
    if actions != [] {
      var a := actions[0];
      ActionInv(c, p, a);
      MissedStep(c, p, a, newest);
      if a.Deliver? || a.Push? || a.Pop? { RejectedStep(c, p.q, if a.Deliver? then LoadOwnHead(a.msg) else a.step); }
      RunMissed(c, Do(c, p, a), actions[1..], FreshAfter(p, a, newest));
    }
  }

  /**
   Queued mode refines inline mode, which dispatches `delivered`.  In every run the dispatched messages are a prefix
   of the accepted ones.  Once `stop_consumer` has returned and with no push under way, they equal what inline mode
   dispatches iff no push was rejected, the consumer's last load of the head was fresh, and nothing was pushed after
   its last, empty pop.  It is enough that no push was rejected and that all pushes were ordered before the store
   that cleared `running`; and none is rejected while no more messages than the capacity are delivered.
   */
  lemma QueuedRefinesInline<T>(c: Word, actions: seq<Action<T>>)
    requires ValidCapacity(c) && CanRun(c, Start<T>(c), actions)
    ensures var p := RunAll(c, Start<T>(c), actions);
      && p.dispatched <= p.q.accepted
      && p.q.accepted == PushedValues(p.q.log)
      && p.delivered == Attempts(p.q.log) + InFlight(p.q)
      && (p.joined ==> p.clearedAt.Some? && p.clearedAt.value <= |p.q.accepted|
                       && p.q.accepted[..p.clearedAt.value] <= p.dispatched)
      && (p.joined && p.q.producer.PushReady? ==>
           (p.dispatched == p.delivered <==>
              && Rejections(p.q.log) == 0
              && LastHeadLoadFresh(c, Start<T>(c), actions, true)
              && PushedSinceEmpty(p.q.log) == 0))
      && (p.joined && p.q.producer.PushReady? && p.clearedAt == Some(|p.q.accepted|) && Rejections(p.q.log) == 0 ==>
           p.dispatched == p.delivered)
      && (|p.delivered| <= c ==> Rejections(p.q.log) == 0)
  {
    InitInv<T>(c);
    RunMissed(c, Start<T>(c), actions, true);
    AttemptsSplit(RunAll(c, Start<T>(c), actions).q.log);
  }

  lemma {:induction false} ClearedStays<T>(c: Word, p: Pipeline<T>, actions: seq<Action<T>>)
    requires c > 0 && PipelineInv(c, p) && !p.running && CanRun(c, p, actions)
    ensures var p' := RunAll(c, p, actions);
      !p'.running && p'.clearedAt == p.clearedAt && p.q.accepted <= p'.q.accepted
    decreases |actions|
  {
    if actions != [] {
      var a := actions[0];
      if a.Deliver? || a.Push? || a.Pop? { StepMonotone(c, p.q, if a.Deliver? then LoadOwnHead(a.msg) else a.step); }
      ActionInv(c, p, a);
      ClearedStays(c, Do(c, p, a), actions[1..]);
    }
  }

  lemma DrainedAfterClear<T>(c: Word, p: Pipeline<T>, ordered: nat, after: seq<Action<T>>)
    requires c > 0 && PipelineInv(c, p) && CanDo(p, ClearRunning(ordered))
    requires CanRun(c, Do(c, p, ClearRunning(ordered)), after)
    ensures var p' := RunAll(c, Do(c, p, ClearRunning(ordered)), after);
      p'.joined ==> p.q.accepted[..ordered] <= p'.dispatched <= p'.q.accepted
  {
    var cleared := Do(c, p, ClearRunning(ordered));
    ActionInv(c, p, ClearRunning(ordered));
    ClearedStays(c, cleared, after);
    RunAllInv(c, cleared, after);
  }

  /** Whatever happens after `running` is cleared, what was ordered before that is dispatched at the join. */
  lemma StopLosesNothing<T>(c: Word, before: seq<Action<T>>, ordered: nat, after: seq<Action<T>>)
    requires ValidCapacity(c) && CanRun(c, Start<T>(c), before)
    requires CanDo(RunAll(c, Start<T>(c), before), ClearRunning(ordered))
    requires CanRun(c, Do(c, RunAll(c, Start<T>(c), before), ClearRunning(ordered)), after)
    ensures var p := RunAll(c, Start<T>(c), before);
      var p' := RunAll(c, Do(c, p, ClearRunning(ordered)), after);
      p'.joined ==> p.q.accepted[..ordered] <= p'.dispatched <= p'.q.accepted
  {
    InitInv<T>(c);
    RunAllInv(c, Start<T>(c), before);
    DrainedAfterClear(c, RunAll(c, Start<T>(c), before), ordered, after);
  }

  // ---------------------------------------------------------------------------------------------
  // A message lost to a stale load

  lemma Precede<T>(c: Word, p: Pipeline<T>, a: Action<T>, rest: seq<Action<T>>)
    requires c > 0 && CanDo(p, a) && CanRun(c, Do(c, p, a), rest)
    ensures CanRun(c, p, [a] + rest) && RunAll(c, p, [a] + rest) == RunAll(c, Do(c, p, a), rest)
  {
    assert ([a] + rest)[1..] == rest;
  }

  /** The consumer, about to make its last head load, has the message pushed behind its back. */
  lemma PushBehind<T>(m: T, p: Pipeline<T>, rest: seq<Action<T>>) returns (actions: seq<Action<T>>)
    requires p == Start<T>(1).(running := false, clearedAt := Some(0), phase := Popping(true),
                               q := Init<T>(1).(consumer := PopTailLoaded(0)))
    requires CanRun(1, p.(q := State([Some(m)], 1, 0, PushReady, PopTailLoaded(0), [m], [], 0, 0, [Pushed(m)]),
                          delivered := [m]), rest)
    ensures CanRun(1, p, actions)
    ensures RunAll(1, p, actions)
         == RunAll(1, p.(q := State([Some(m)], 1, 0, PushReady, PopTailLoaded(0), [m], [], 0, 0, [Pushed(m)]),
                         delivered := [m]), rest)
  {
    var p1 := Do(1, p, Deliver(m));
    var p2 := Do(1, p1, Push(LoadTail(0)));
    var p3 := Do(1, p2, Push(WriteSlot));
    var p4 := Do(1, p3, Push(StoreHead));
    assert p4.q == State([Some(m)], 1, 0, PushReady, PopTailLoaded(0), [m], [], 0, 0, [Pushed(m)]);
    Precede(1, p3, Push(StoreHead), rest);
    actions := [Push(StoreHead)] + rest;
    Precede(1, p2, Push(WriteSlot), actions);
    actions := [Push(WriteSlot)] + actions;
    Precede(1, p1, Push(LoadTail(0)), actions);
    actions := [Push(LoadTail(0))] + actions;
    Precede(1, p, Deliver(m), actions);
    actions := [Deliver(m)] + actions;
  }

  /** A push completes before the consumer's last, empty pop; that pop's head load is stale; the message is lost. */
  lemma StaleLoadLosesMessage<T>(m: T) returns (actions: seq<Action<T>>)
    ensures ValidCapacity(1) && CanRun(1, Start<T>(1), actions)
    ensures var p := RunAll(1, Start<T>(1), actions);
      && p.joined && p.q.producer.PushReady? && p.q.log == [Pushed(m), PopEmpty]
      && p.delivered == [m] && p.dispatched == []
  {
    var p0 := Start<T>(1);
    var p1 := Do(1, p0, ClearRunning(0));
    var p2 := Do(1, p1, CheckRunning);
    var p3 := Do(1, p2, Pop(LoadOwnTail));
    var p4 := p3.(q := State([Some(m)], 1, 0, PushReady, PopTailLoaded(0), [m], [], 0, 0, [Pushed(m)]),
                  delivered := [m]);
    var p5 := Do(1, p4, Pop(LoadHead(0)));
    Precede(1, p5, Join, []);
    Precede(1, p4, Pop(LoadHead(0)), [Join] + []);
    actions := PushBehind(m, p3, [Pop(LoadHead(0))] + ([Join] + []));
    Precede(1, p2, Pop(LoadOwnTail), actions);
    actions := [Pop(LoadOwnTail)] + actions;
    Precede(1, p1, CheckRunning, actions);
    actions := [CheckRunning] + actions;
    Precede(1, p0, ClearRunning(0), actions);
    actions := [ClearRunning(0)] + actions;
  }

  // ---------------------------------------------------------------------------------------------
  // The drain ends

  predicate OfConsumer<T>(a: Action<T>) {
    a.CheckRunning? || a.Pop? || a.Dispatch?
  }

  function CountConsumer<T>(actions: seq<Action<T>>): nat {
    if actions == [] then 0 else (if OfConsumer(actions[0]) then 1 else 0) + CountConsumer(actions[1..])
  }

  function CountDelivered<T>(actions: seq<Action<T>>): nat {
    if actions == [] then 0 else (if actions[0].Deliver? then 1 else 0) + CountDelivered(actions[1..])
  }

  /**
   Consumer steps left once `running` is cleared: five for each message in the queue or on its way in, fewer for the
   current one, and up to three more before the consumer looks at `running`.
   */
  function DrainBudget<T>(p: Pipeline<T>): int {
    if p.phase.Exited? then 0
    else
      5 * (|p.q.accepted| - |p.q.popped| + |InFlight(p.q)|)
      + (match p.phase
         case Polling => 3
         case Exited => 0
         case Dispatching(draining, _) => if draining then 3 else 4
         case Popping(draining) => PopBudget(p.q.consumer) + if draining then 0 else 3)
  }

  function PopBudget<T>(consumer: Consumer<T>): int {
    match consumer
    case PopReady => 2
    case PopTailLoaded(_) => 1
    case PopAdmitted(_) => 0
    case PopSlotRead(_, _) => -1
  }

  lemma DrainPop<T>(c: Word, p: Pipeline<T>, step: Step<T>)
    requires c > 0 && PipelineInv(c, p) && CanDo(p, Pop(step)) && !p.running
    ensures DrainBudget(Do(c, p, Pop(step))) + 1 <= DrainBudget(p)
  {
    if step.ReadSlot? { ReadIsSafe(c, p.q); }
  }

  lemma DrainStep<T>(c: Word, p: Pipeline<T>, a: Action<T>)
    requires c > 0 && PipelineInv(c, p) && CanDo(p, a) && !p.running
    ensures !Do(c, p, a).running
    ensures DrainBudget(Do(c, p, a)) + (if OfConsumer(a) then 1 else 0)
         <= DrainBudget(p) + (if a.Deliver? then 5 else 0)
  {
    if a.Pop? { DrainPop(c, p, a.step); }
  }

  /** Once `running` is cleared, in any run the consumer's steps are bounded by what was queued and delivered. */
  lemma {:induction false} DrainEnds<T>(c: Word, p: Pipeline<T>, actions: seq<Action<T>>)
    requires c > 0 && PipelineInv(c, p) && !p.running && CanRun(c, p, actions)
    ensures CountConsumer(actions) <= DrainBudget(p) + 5 * CountDelivered(actions)
    decreases |actions|
  {
    if actions != [] {
      DrainStep(c, p, actions[0]);
      ActionInv(c, p, actions[0]);
      DrainEnds(c, Do(c, p, actions[0]), actions[1..]);
    }
  }

  /** Until it has exited, the consumer thread always has a step to take. */
  lemma ConsumerNeverStuck<T>(c: Word, p: Pipeline<T>) returns (a: Action<T>)
    requires c > 0 && PipelineInv(c, p) && !p.phase.Exited?
    ensures OfConsumer(a) && CanDo(p, a)
  {
    match p.phase
    case Polling => a := CheckRunning;
    case Dispatching(_, _) => a := Dispatch;
    case Popping(_) =>
      match p.q.consumer {
        case PopReady => a := Pop(LoadOwnTail);
        case PopTailLoaded(_) => a := Pop(LoadHead(|p.q.accepted|));
        case PopAdmitted(_) => a := Pop(ReadSlot);
        case PopSlotRead(_, _) => a := Pop(StoreTail);
      }
  }

  // ---------------------------------------------------------------------------------------------
  // A waiting message is dispatched

  /** Consumer steps until the next dispatch, while a message waits and head loads are fresh. */
  function StepsToDispatch<T>(p: Pipeline<T>): nat {
    match p.phase
    case Polling => 6
    case Exited => 0
    case Dispatching(_, _) => 1
    case Popping(_) =>
      match p.q.consumer
      case PopReady => 5
      case PopTailLoaded(_) => 4
      case PopAdmitted(_) => 3
      case PopSlotRead(_, _) => 2
  }

  predicate LoadsFresh<T>(p: Pipeline<T>, a: Action<T>) {
    a.Pop? && a.step.LoadHead? ==> a.step.observed == |p.q.accepted|
  }

  predicate AllLoadsFresh<T>(c: Word, p: Pipeline<T>, actions: seq<Action<T>>)
    requires c > 0 && CanRun(c, p, actions)
    decreases |actions|
  {
    actions == [] || (LoadsFresh(p, actions[0]) && AllLoadsFresh(c, Do(c, p, actions[0]), actions[1..]))
  }

  predicate Waits<T>(p: Pipeline<T>) {
    !p.phase.Exited? && |p.dispatched| < |p.q.accepted|
  }

  lemma PopTowardsDispatch<T>(c: Word, p: Pipeline<T>, step: Step<T>)
    requires c > 0 && PipelineInv(c, p) && CanDo(p, Pop(step)) && Waits(p) && LoadsFresh(p, Pop(step))
    ensures var p' := Do(c, p, Pop(step)); Waits(p') && StepsToDispatch(p') < StepsToDispatch(p)
  {
    match step
    case LoadHead(observed) => EmptyIsGenuineIffFresh(c, p.q, observed);
    case ReadSlot => ReadIsSafe(c, p.q);
    case _ =>
  }

  lemma StepTowardsDispatch<T>(c: Word, p: Pipeline<T>, a: Action<T>)
    requires c > 0 && PipelineInv(c, p) && CanDo(p, a) && Waits(p) && LoadsFresh(p, a)
    ensures var p' := Do(c, p, a);
      if a.Dispatch? then |p'.dispatched| == |p.dispatched| + 1
      else Waits(p') && |p'.dispatched| == |p.dispatched|
           && StepsToDispatch(p') + (if OfConsumer(a) then 1 else 0) <= StepsToDispatch(p)
  {
    if a.Pop? { PopTowardsDispatch(c, p, a.step); }
    if a.Deliver? || a.Push? { StepMonotone(c, p.q, if a.Deliver? then LoadOwnHead(a.msg) else a.step); }
  }

  lemma {:induction false} DispatchedGrows<T>(c: Word, p: Pipeline<T>, actions: seq<Action<T>>)
    requires c > 0 && CanRun(c, p, actions)
    ensures |p.dispatched| <= |RunAll(c, p, actions).dispatched|
    decreases |actions|
  {
    if actions != [] { DispatchedGrows(c, Do(c, p, actions[0]), actions[1..]); }
  }

  /** While a message waits, running or draining, six consumer steps with fresh head loads dispatch one. */
  lemma {:induction false} DispatchesSoon<T>(c: Word, p: Pipeline<T>, actions: seq<Action<T>>)
    requires c > 0 && PipelineInv(c, p) && Waits(p) && CanRun(c, p, actions) && AllLoadsFresh(c, p, actions)
    ensures StepsToDispatch(p) <= 6
    ensures CountConsumer(actions) >= StepsToDispatch(p) ==> |RunAll(c, p, actions).dispatched| > |p.dispatched|
    decreases |actions|
  {
    if actions != [] {
      StepTowardsDispatch(c, p, actions[0]);
      ActionInv(c, p, actions[0]);
      var p' := Do(c, p, actions[0]);
      if actions[0].Dispatch? { DispatchedGrows(c, p', actions[1..]); } else { DispatchesSoon(c, p', actions[1..]); }
    }
  }
}
