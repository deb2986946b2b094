/**
 The listen key's life: the thread that calls start, keep_alive and stop, and the keep-alive thread, which
 sleeps on a condition variable under a mutex and renews the key when a sleep times out.

 A sleep may also end spuriously, and a renewal that throws on the keep-alive thread ends the process.
 */
module ListenKey {
  /** REST calls about the key, each entered when it begins. */
  datatype Call = Create | Renew | Delete

  datatype Keeper =
    | NotStarted
    | WantLock
    | LoopHead
    | Predicate(timedOut: bool)
    | Sleeping(notified: bool)
    | Woken(timedOut: bool)
    | BeforeRenew
    | Renewing
    | Finished

  datatype Owner =
    | Idle
    | Creating
    | Connecting
    | StopWantLock
    | StopHolding
    | StopNotify
    | StopJoin
    | StopKey
    | Deleting

  /**
   `timeouts` counts sleeps that timed out, `renewals` automatic renewals begun, and `lateRenewals` those of them
   begun after the stop flag was set.
   */
  datatype State = State(
    owner: Owner,
    keeper: Keeper,
    locked: bool,
    stopFlag: bool,
    startCalled: bool,
    hasKey: bool,
    calls: seq<Call>,
    timeouts: nat,
    renewals: nat,
    lateRenewals: nat,
    crashed: bool)

  datatype Step =
    | Start
    | ManualRenew
    | Stop
    | OwnerStep(ok: bool)
    | KeeperStep(ok: bool)
    | TimeOut
    | WakeSpuriously

  const INIT := State(Idle, NotStarted, false, false, false, false, [], 0, 0, 0, false)

  predicate Enabled(s: State, step: Step) {
    && !s.crashed
    && match step
       case Start => s.owner.Idle? && !s.startCalled
       case ManualRenew => s.owner.Idle?
       case Stop => s.owner.Idle?
       case OwnerStep(_) =>
         (match s.owner
          case Idle => false
          case StopWantLock => !s.locked
          case StopJoin => s.keeper.NotStarted? || s.keeper.Finished?
          case _ => true)
       case KeeperStep(_) =>
         (match s.keeper
          case NotStarted => false
          case WantLock => !s.locked
          case Sleeping(notified) => notified
          case Woken(_) => !s.locked
          case Finished => false
          case _ => true)
       case TimeOut => s.keeper.Sleeping?
       case WakeSpuriously => s.keeper.Sleeping?
  }

  function OwnerNext(s: State, ok: bool): State {
    match s.owner
    case Creating => s.(hasKey := ok, owner := if ok then Connecting else Idle)
    case Connecting => if ok then s.(stopFlag := false, keeper := WantLock, owner := Idle) else s.(owner := Idle)
    case StopWantLock => s.(locked := true, owner := StopHolding)
    case StopHolding => s.(stopFlag := true, locked := false, owner := StopNotify)
    case StopNotify => s.(keeper := if s.keeper.Sleeping? then Sleeping(true) else s.keeper, owner := StopJoin)
    case StopJoin => s.(owner := StopKey)
    case StopKey => if s.hasKey then s.(calls := s.calls + [Delete], owner := Deleting) else s.(owner := Idle)
    case Deleting => s.(hasKey := false, owner := Idle)
    case Idle => s
  }

  function KeeperNext(s: State, ok: bool): State {
    match s.keeper
    case WantLock => s.(locked := true, keeper := LoopHead)
    case LoopHead => if s.stopFlag then s.(locked := false, keeper := Finished) else s.(keeper := Predicate(false))
    case Predicate(timedOut) =>
      if s.stopFlag then s.(keeper := LoopHead)
      else s.(locked := false, keeper := if timedOut then BeforeRenew else Sleeping(false))
    case Sleeping(_) => s.(keeper := Woken(false))
    case Woken(timedOut) => s.(locked := true, keeper := Predicate(timedOut))
    case BeforeRenew =>
      if !s.hasKey then s.(keeper := WantLock)
      else s.(calls := s.calls + [Renew], keeper := Renewing, renewals := s.renewals + 1,
              lateRenewals := if s.stopFlag then s.lateRenewals + 1 else s.lateRenewals)
    case Renewing => if ok then s.(keeper := WantLock) else s.(crashed := true)
    case _ => s
  }

  function Next(s: State, step: Step): State
    requires Enabled(s, step)
  {
    match step
    case Start => s.(startCalled := true, calls := s.calls + [Create], owner := Creating)
    case ManualRenew => if s.hasKey then s.(calls := s.calls + [Renew]) else s
    case Stop => s.(owner := StopWantLock)
    case OwnerStep(ok) => OwnerNext(s, ok)
    case KeeperStep(ok) => KeeperNext(s, ok)
    case TimeOut => s.(keeper := Woken(true), timeouts := s.timeouts + 1)
    case WakeSpuriously => s.(keeper := Woken(false))
  }

  predicate Legal(s: State, run: seq<Step>)
    decreases |run|
  {
    run == [] || (Enabled(s, run[0]) && Legal(Next(s, run[0]), run[1..]))
  }

  function Run(s: State, run: seq<Step>): State
    requires Legal(s, run)
    decreases |run|
  {
    if run == [] then s else Run(Next(s, run[0]), run[1..])
  }

  // ---------------------------------------------------------------------------------------------
  // The invariant

  predicate AllRenew(calls: seq<Call>) {
    forall i :: 0 <= i < |calls| ==> calls[i] == Renew
  }

  /** Created at most once, renewed any number of times, deleted at most once and last. */
  predicate KeyHistory(calls: seq<Call>) {
    || calls == []
    || (calls[0] == Create
        && (AllRenew(calls[1..]) || (|calls| >= 2 && calls[|calls| - 1] == Delete && AllRenew(calls[1..|calls| - 1]))))
  }

  /** The key exists and may still be renewed. */
  predicate Renewable(calls: seq<Call>) {
    calls != [] && calls[0] == Create && AllRenew(calls[1..])
  }

  predicate KeeperAlive(keeper: Keeper) {
    !keeper.NotStarted? && !keeper.Finished?
  }

  ghost predicate CallsInv(s: State) {
    && KeyHistory(s.calls)
    && (!s.startCalled ==> s.calls == [] && !s.hasKey)
    && (s.owner.Creating? ==> s.calls == [Create] && !s.hasKey)
    && (s.owner.Connecting? ==> s.hasKey)
    && (s.hasKey ==> s.startCalled && (Renewable(s.calls) || s.owner.Deleting?))
    && (KeeperAlive(s.keeper) ==> s.hasKey && !s.owner.Deleting?)
    && (s.owner.StopKey? || s.owner.Deleting? ==> !KeeperAlive(s.keeper))
    && (!s.startCalled || s.owner.Creating? || s.owner.Connecting? ==> s.keeper.NotStarted?)
  }

  ghost predicate LockInv(s: State) {
    && (s.locked <==> s.keeper.LoopHead? || s.keeper.Predicate? || s.owner.StopHolding?)
    && !(s.owner.StopHolding? && (s.keeper.LoopHead? || s.keeper.Predicate?))
  }

  /** No wakeup is lost: a sleeper that the stop flag would end has been notified, or is about to be. */
  ghost predicate WakeInv(s: State) {
    && (s.stopFlag && s.keeper == Sleeping(false) ==> s.owner.StopNotify?)
    && (s.owner.StopNotify? || s.owner.StopJoin? ==> s.stopFlag)
    && (s.stopFlag ==> s.lateRenewals + (if s.keeper.BeforeRenew? then 1 else 0) <= 1)
    && (!s.stopFlag ==> s.lateRenewals == 0)
    && (s.keeper.NotStarted? ==> s.lateRenewals == 0)
  }

  predicate RenewalDue(keeper: Keeper) {
    keeper == Woken(true) || keeper == Predicate(true) || keeper.BeforeRenew?
  }

  /** Every sleep that times out is followed by a renewal of its own, unless the stop flag comes between. */
  ghost predicate PaceInv(s: State) {
    && (!s.stopFlag ==> s.timeouts == s.renewals + if RenewalDue(s.keeper) then 1 else 0)
    && (s.stopFlag ==> s.timeouts >= s.renewals + if RenewalDue(s.keeper) then 1 else 0)
    && (s.keeper.NotStarted? ==> s.timeouts == s.renewals == 0)
  }

  predicate Deleted(calls: seq<Call>) {
    calls != [] && calls[|calls| - 1] == Delete
  }

  /** A keep-alive thread ends only for a stop, and that stop deletes the key before it returns. */
  ghost predicate EndInv(s: State) {
    && (s.stopFlag && KeeperAlive(s.keeper) ==> s.owner.StopNotify? || s.owner.StopJoin?)
    && (s.keeper.Finished? && s.hasKey ==>
          s.owner.StopNotify? || s.owner.StopJoin? || s.owner.StopKey? || s.owner.Deleting?)
    && (s.keeper.Finished? && !s.hasKey ==> Deleted(s.calls))
    && (s.owner.Deleting? ==> Deleted(s.calls))
  }

  ghost predicate Inv(s: State) {
    CallsInv(s) && LockInv(s) && WakeInv(s) && PaceInv(s) && EndInv(s)
  }

  lemma CallsExtend(calls: seq<Call>)
    requires Renewable(calls)
    ensures KeyHistory(calls) && Renewable(calls + [Renew])
    ensures KeyHistory(calls + [Renew]) && KeyHistory(calls + [Delete])
  {
    assert (calls + [Renew])[1..] == calls[1..] + [Renew];
    assert (calls + [Delete])[1..|calls|] == calls[1..];
  }

  lemma OwnerCalls(s: State, ok: bool)
    requires Inv(s) && Enabled(s, OwnerStep(ok))
    ensures CallsInv(OwnerNext(s, ok))
  {
    if s.owner.StopKey? && s.hasKey { CallsExtend(s.calls); }
  }

  lemma KeeperCalls(s: State, ok: bool)
    requires Inv(s) && Enabled(s, KeeperStep(ok))
    ensures CallsInv(KeeperNext(s, ok))
  {
    if s.keeper.BeforeRenew? { CallsExtend(s.calls); }
  }

  lemma StepCalls(s: State, step: Step)
    requires Inv(s) && Enabled(s, step)
    ensures CallsInv(Next(s, step))
  {
    match step
    case OwnerStep(ok) => OwnerCalls(s, ok);
    case KeeperStep(ok) => KeeperCalls(s, ok);
    case ManualRenew => if s.hasKey { CallsExtend(s.calls); }
    case _ =>
  }

  lemma StepLock(s: State, step: Step)
    requires Inv(s) && Enabled(s, step)
    ensures LockInv(Next(s, step))
  {
  }

  lemma StepWake(s: State, step: Step)
    requires Inv(s) && Enabled(s, step)
    ensures WakeInv(Next(s, step))
  {
  }

  lemma StepPace(s: State, step: Step)
    requires Inv(s) && Enabled(s, step)
    ensures PaceInv(Next(s, step))
  {
  }

  lemma StepEnd(s: State, step: Step)
    requires Inv(s) && Enabled(s, step)
    ensures EndInv(Next(s, step))
  {
  }

  lemma StepInv(s: State, step: Step)
    requires Inv(s) && Enabled(s, step)
    ensures Inv(Next(s, step))
  {
    StepCalls(s, step);
    StepLock(s, step);
    StepWake(s, step);
    StepPace(s, step);
    StepEnd(s, step);
  }

  lemma {:induction false} RunInv(s: State, run: seq<Step>)
    requires Inv(s) && Legal(s, run)
    ensures Inv(Run(s, run))
    decreases |run|
  {
    if run != [] {
      StepInv(s, run[0]);
      RunInv(Next(s, run[0]), run[1..]);
    }
  }

  /**
   In every interleaving of one start, any manual renewals and any stops with the keep-alive thread, the calls
   about the key are a create, renewals, and at most one delete, which comes last; until the stop flag is set
   every timed-out sleep is followed by one automatic renewal and there are no others; after it is set at most
   one begins; a stop that waits to join never waits for an unnotified sleeper; and when the stop that ended the
   thread has returned, the key has been deleted and forgotten.
   */
  lemma KeyLifecycle(run: seq<Step>)
    requires Legal(INIT, run)
    ensures var s := Run(INIT, run);
      && KeyHistory(s.calls)
      && s.renewals <= s.timeouts
      && (!s.stopFlag ==> s.timeouts == s.renewals + if RenewalDue(s.keeper) then 1 else 0)
      && (s.stopFlag ==> s.lateRenewals <= 1)
      && (s.owner.StopJoin? ==> s.stopFlag && s.keeper != Sleeping(false))
      && (s.owner.Deleting? ==> !KeeperAlive(s.keeper))
      && (s.owner.Idle? && s.keeper.Finished? ==> !s.hasKey && Deleted(s.calls))
  {
    RunInv(INIT, run);
  }

  // ---------------------------------------------------------------------------------------------
  // What the labels say: how far the start has come, and which calls were asked for

  datatype Progress = NotCalled | AwaitsCreate | CreateFailed | AwaitsConnect | ConnectFailed | Started

  /** How far `start` has come, from the labels alone: its create and its connect are the owner's next steps. */
  function ProgressAfter(p: Progress, step: Step): Progress {
    match (p, step)
    case (NotCalled, Start) => AwaitsCreate
    case (AwaitsCreate, OwnerStep(ok)) => if ok then AwaitsConnect else CreateFailed
    case (AwaitsConnect, OwnerStep(ok)) => if ok then Started else ConnectFailed
    case _ => p
  }

  function ProgressOf(p: Progress, run: seq<Step>): Progress
    decreases |run|
  {
    if run == [] then p else ProgressOf(ProgressAfter(p, run[0]), run[1..])
  }

  predicate Created(p: Progress) {
    p.AwaitsConnect? || p.ConnectFailed? || p.Started?
  }

  predicate Stopping(owner: Owner) {
    || owner.StopWantLock? || owner.StopHolding? || owner.StopNotify?
    || owner.StopJoin? || owner.StopKey? || owner.Deleting?
  }

  /** Manual renewals asked for while there was a key. */
  function ManualRenewals(s: State, run: seq<Step>): nat
    requires Legal(s, run)
    decreases |run|
  {
    if run == [] then 0
    else (if run[0].ManualRenew? && s.hasKey then 1 else 0) + ManualRenewals(Next(s, run[0]), run[1..])
  }

  /** An automatic renewal has thrown. */
  predicate RenewalThrew(s: State, run: seq<Step>)
    requires Legal(s, run)
    decreases |run|
  {
    run != [] && ((run[0] == KeeperStep(false) && s.keeper.Renewing?) || RenewalThrew(Next(s, run[0]), run[1..]))
  }

  /** Sleeps that timed out and after which the thread found the stop flag clear. */
  function DueRenewals(s: State, run: seq<Step>): nat
    requires Legal(s, run)
    decreases |run|
  {
    if run == [] then 0
    else (if run[0].KeeperStep? && s.keeper == Predicate(true) && !s.stopFlag then 1 else 0)
         + DueRenewals(Next(s, run[0]), run[1..])
  }

  lemma StepDue(s: State, step: Step)
    requires Inv(s) && Enabled(s, step)
    ensures var s' := Next(s, step);
      s'.renewals + (if s'.keeper.BeforeRenew? then 1 else 0)
        == s.renewals + (if s.keeper.BeforeRenew? then 1 else 0)
           + if step.KeeperStep? && s.keeper == Predicate(true) && !s.stopFlag then 1 else 0
  {
  }

  lemma {:induction false} DueFrom(s: State, run: seq<Step>)
    requires Inv(s) && Legal(s, run)
    ensures var s' := Run(s, run);
      s'.renewals + (if s'.keeper.BeforeRenew? then 1 else 0)
        == s.renewals + (if s.keeper.BeforeRenew? then 1 else 0) + DueRenewals(s, run)
    decreases |run|
  {
    if run != [] {
      StepInv(s, run[0]);
      StepDue(s, run[0]);
      DueFrom(Next(s, run[0]), run[1..]);
    }
  }

  ghost predicate ProgressInv(s: State, p: Progress) {
    && (s.startCalled <==> !p.NotCalled?)
    && (s.owner.Creating? <==> p.AwaitsCreate?)
    && (s.owner.Connecting? <==> p.AwaitsConnect?)
    && (s.keeper.NotStarted? <==> !p.Started?)
    && (s.hasKey <==> Created(p) && (!Deleted(s.calls) || s.owner.Deleting?))
    && (Deleted(s.calls) ==> Created(p))
  }

  lemma StepProgress(s: State, p: Progress, step: Step)
    requires Inv(s) && ProgressInv(s, p) && Enabled(s, step)
    ensures ProgressInv(Next(s, step), ProgressAfter(p, step))
  {
  }

  /** Calls about the key other than renewals. */
  function OtherCalls(s: State): nat {
    (if s.startCalled then 1 else 0) + if Deleted(s.calls) then 1 else 0
  }

  lemma StepCallCount(s: State, step: Step)
    requires Inv(s) && Enabled(s, step)
    ensures var s' := Next(s, step);
      |s'.calls| - s'.renewals - OtherCalls(s')
        == |s.calls| - s.renewals - OtherCalls(s) + if step.ManualRenew? && s.hasKey then 1 else 0
  {
  }

  lemma {:induction false} ProgressFrom(s: State, p: Progress, run: seq<Step>)
    requires Inv(s) && ProgressInv(s, p) && Legal(s, run)
    ensures Inv(Run(s, run)) && ProgressInv(Run(s, run), ProgressOf(p, run))
    ensures var s' := Run(s, run);
      |s'.calls| - s'.renewals - OtherCalls(s') == |s.calls| - s.renewals - OtherCalls(s) + ManualRenewals(s, run)
    decreases |run|
  {
    if run != [] {
      StepInv(s, run[0]);
      StepProgress(s, p, run[0]);
      StepCallCount(s, run[0]);
      ProgressFrom(Next(s, run[0]), ProgressAfter(p, run[0]), run[1..]);
    }
  }

  lemma {:induction false} CrashFrom(s: State, run: seq<Step>)
    requires Legal(s, run)
    ensures Run(s, run).crashed <==> s.crashed || RenewalThrew(s, run)
    decreases |run|
  {
    if run != [] { CrashFrom(Next(s, run[0]), run[1..]); }
  }

  /**
   In every run the keep-alive thread has been started iff the create and then the connect succeeded, and without it
   nothing is renewed automatically; there is a key iff the create succeeded and no delete has ended; a delete is
   only called for a created key; besides the create and the delete the calls are the automatic renewals and the
   manual ones made with a key; every timed-out sleep whose thread then found the stop flag clear is renewed, even if
   the flag is set before the call begins; and the process has ended iff an automatic renewal threw.
   */
  lemma CallsFollowLabels(run: seq<Step>)
    requires Legal(INIT, run)
    ensures var s, p := Run(INIT, run), ProgressOf(NotCalled, run);
      && (!s.keeper.NotStarted? <==> p.Started?)
      && (!p.Started? ==> s.renewals == 0)
      && (s.hasKey <==> Created(p) && (!Deleted(s.calls) || s.owner.Deleting?))
      && (Deleted(s.calls) ==> Created(p))
      && KeyHistory(s.calls) && (s.calls != [] <==> !p.NotCalled?)
      && |s.calls| == (if p.NotCalled? then 0 else 1) + s.renewals + ManualRenewals(INIT, run)
                      + (if Deleted(s.calls) then 1 else 0)
      && s.renewals + (if s.keeper.BeforeRenew? then 1 else 0) == DueRenewals(INIT, run)
      && (s.crashed <==> RenewalThrew(INIT, run))
  {
    ProgressFrom(INIT, NotCalled, run);
    DueFrom(INIT, run);
    CrashFrom(INIT, run);
  }

  /** Whatever state a stop met, it returns with no key and no thread left, having deleted the key if there was one. */
  lemma StopLeavesNoKey(run: seq<Step>, ok: bool)
    requires Legal(INIT, run) && Enabled(Run(INIT, run), OwnerStep(ok)) && Stopping(Run(INIT, run).owner)
    ensures var s' := Next(Run(INIT, run), OwnerStep(ok));
      && (s'.owner.Idle? ==> !s'.hasKey && !KeeperAlive(s'.keeper))
      && (s'.owner.Idle? ==> (Deleted(s'.calls) <==> Created(ProgressOf(NotCalled, run))))
      && (s'.owner.Idle? || Stopping(s'.owner))
  {
    ProgressFrom(INIT, NotCalled, run);
  }

  lemma {:induction false} RunAppend(s: State, run: seq<Step>, step: Step)
    requires Legal(s, run) && Enabled(Run(s, run), step)
    ensures Legal(s, run + [step]) && Run(s, run + [step]) == Next(Run(s, run), step)
    decreases |run|
  {
    if run != [] {
      assert (run + [step])[1..] == run[1..] + [step];
      RunAppend(Next(s, run[0]), run[1..], step);
    }
  }

  lemma Then(run: seq<Step>, now: State, step: Step) returns (run': seq<Step>, next: State)
    requires Legal(INIT, run) && Run(INIT, run) == now && Enabled(now, step)
    ensures next == Next(now, step) && Legal(INIT, run') && Run(INIT, run') == next
  {
    RunAppend(INIT, run, step);
    run', next := run + [step], Next(now, step);
  }

  /** The key is created, connected with, and its keep-alive thread sleeps. */
  lemma StartUp() returns (run: seq<Step>, s: State)
    ensures Legal(INIT, run) && Run(INIT, run) == s
    ensures s == INIT.(startCalled := true, calls := [Create], hasKey := true, keeper := Sleeping(false))
  {
    run, s := Then([], INIT, Start);
    run, s := Then(run, s, OwnerStep(true));
    run, s := Then(run, s, OwnerStep(true));
    run, s := Then(run, s, KeeperStep(true));
    run, s := Then(run, s, KeeperStep(true));
    run, s := Then(run, s, KeeperStep(true));
  }

  /** A sleep times out and the key is renewed. */
  lemma RenewOnce() returns (run: seq<Step>, s: State)
    ensures Legal(INIT, run) && Run(INIT, run) == s
    ensures s == INIT.(startCalled := true, calls := [Create, Renew], hasKey := true, keeper := WantLock,
                       timeouts := 1, renewals := 1)
  {
    run, s := StartUp();
    run, s := Then(run, s, TimeOut);
    run, s := Then(run, s, KeeperStep(true));
    run, s := Then(run, s, KeeperStep(true));
    run, s := Then(run, s, KeeperStep(true));
    run, s := Then(run, s, KeeperStep(true));
  }

  lemma StopThread() returns (run: seq<Step>, s: State)
    ensures Legal(INIT, run) && Run(INIT, run) == s
    ensures s == INIT.(startCalled := true, stopFlag := true, calls := [Create, Renew], hasKey := true,
                       keeper := Finished, owner := StopJoin, timeouts := 1, renewals := 1)
  {
    run, s := RenewOnce();
    run, s := Then(run, s, Stop);
    run, s := Then(run, s, OwnerStep(true));
    run, s := Then(run, s, OwnerStep(true));
    run, s := Then(run, s, OwnerStep(true));
    run, s := Then(run, s, KeeperStep(true));
    run, s := Then(run, s, KeeperStep(true));
  }

  /** A whole life is possible: create, one automatic renewal, delete, with the thread ended. */
  lemma WholeLife() returns (run: seq<Step>, s: State)
    ensures Legal(INIT, run) && Run(INIT, run) == s
    ensures s.calls == [Create, Renew, Delete] && s.renewals == 1 && s.owner.Idle? && s.keeper.Finished? && !s.hasKey
  {
    run, s := StopThread();
    run, s := Then(run, s, OwnerStep(true));
    run, s := Then(run, s, OwnerStep(true));
    run, s := Then(run, s, OwnerStep(true));
  }

  // ---------------------------------------------------------------------------------------------
  // The join completes

  /** Steps of its own that the keep-alive thread has left once the stop flag is set. */
  function StepsLeft(keeper: Keeper): nat {
    match keeper
    case NotStarted => 0
    case Finished => 0
    case LoopHead => 1
    case WantLock => 2
    case Predicate(_) => 2
    case Renewing => 3
    case Woken(_) => 3
    case BeforeRenew => 4
    case Sleeping(_) => 4
  }

  predicate OfKeeper(step: Step) {
    step.KeeperStep? || step.TimeOut? || step.WakeSpuriously?
  }

  /** While stop waits to join, the keep-alive thread can always move, and every move brings it closer to its end. */
  lemma JoinMakesProgress(s: State, step: Step)
    requires Inv(s) && s.owner.StopJoin? && !s.crashed
    ensures KeeperAlive(s.keeper) ==> Enabled(s, KeeperStep(true))
    ensures !KeeperAlive(s.keeper) ==> Enabled(s, OwnerStep(true))
    ensures Enabled(s, step) && OfKeeper(step) ==>
      Next(s, step).crashed || StepsLeft(Next(s, step).keeper) < StepsLeft(s.keeper)
  {
  }

  predicate OnlyKeeper(run: seq<Step>) {
    forall i :: 0 <= i < |run| ==> OfKeeper(run[i])
  }

  /** However it is scheduled, the keep-alive thread takes at most four steps before stop can join it. */
  lemma {:induction false} JoinCompletes(s: State, run: seq<Step>)
    requires Inv(s) && s.owner.StopJoin? && !s.crashed && Legal(s, run) && OnlyKeeper(run)
    ensures |run| <= StepsLeft(s.keeper) <= 4
    ensures var s' := Run(s, run);
      s'.crashed || Enabled(s', OwnerStep(true)) || (Enabled(s', KeeperStep(true)) && |run| < StepsLeft(s.keeper))
    decreases |run|
  {
    if run == [] {
      JoinMakesProgress(s, KeeperStep(true));
    } else {
      JoinMakesProgress(s, run[0]);
      StepInv(s, run[0]);
      var s' := Next(s, run[0]);
      if s'.crashed { assert run[1..] == []; } else { JoinCompletes(s', run[1..]); }
    }
  }

  // ---------------------------------------------------------------------------------------------
  // The key never expires: runs with a clock
  //
  // Every step carries the time at which it is taken, in minutes.  The create, the connect and each renewal take at
  // most `limit`; the keep-alive thread computes its wake-up time within `slack` of being started and of each
  // renewal's end, and begins a renewal within `slack` of the wake-up time, however often it wakes spuriously before.

  const INTERVAL: real := 25.0
  const EXPIRY: real := 60.0

  datatype Limits = Limits(limit: real, slack: real)

  /** `seen` is when the server sees the call that the step completes. */
  datatype Tick = Tick(step: Step, at: real, seen: real)

  /**
   `due` is the latest time of the milestone under way, `wakeup` the wake-up time of the current sleep, `began` the
   start of the last create or automatic renewal, and `refreshes` when the server saw those that succeeded.
   */
  datatype Timed = Timed(s: State, now: real, due: real, wakeup: real, began: real, refreshes: seq<real>)

  const TIMED_INIT := Timed(INIT, 0.0, 0.0, 0.0, 0.0, [])

  /** The start is under way, or the keep-alive thread lives and has not been told to stop. */
  predicate Watched(s: State) {
    s.owner.Creating? || s.owner.Connecting? || (KeeperAlive(s.keeper) && !s.stopFlag)
  }

  predicate CompletesRefresh(s: State, step: Step) {
    (step == OwnerStep(true) && s.owner.Creating?) || (step == KeeperStep(true) && s.keeper.Renewing?)
  }

  predicate CanTick(t: Timed, x: Tick) {
    && Enabled(t.s, x.step)
    && t.now <= x.at
    && (Watched(t.s) ==> x.at <= t.due)
    && (x.step.TimeOut? ==> t.wakeup <= x.at)
    && (CompletesRefresh(t.s, x.step) ==> t.began <= x.seen <= x.at)
  }

  function DoTick(k: Limits, t: Timed, x: Tick): Timed
    requires CanTick(t, x)
  {
    var t' := t.(s := Next(t.s, x.step), now := x.at);
    if x.step.Start? then
      t'.(began := x.at, due := x.at + k.limit)
    else if x.step.OwnerStep? && t.s.owner.Creating? && x.step.ok then
      t'.(refreshes := t.refreshes + [x.seen], due := x.at + k.limit)
    else if x.step.OwnerStep? && t.s.owner.Connecting? && x.step.ok then
      t'.(due := x.at + k.slack)
    else if x.step.KeeperStep? && t.s.keeper.LoopHead? then
      t'.(wakeup := x.at + INTERVAL, due := x.at + INTERVAL + k.slack)
    else if x.step.KeeperStep? && t.s.keeper.BeforeRenew? then
      t'.(began := x.at, due := x.at + k.limit)
    else if x.step.KeeperStep? && t.s.keeper.Renewing? && x.step.ok then
      t'.(refreshes := t.refreshes + [x.seen], due := x.at + k.slack)
    else t'
  }

  predicate CanTickAll(k: Limits, t: Timed, run: seq<Tick>)
    decreases |run|
  {
    run == [] || (CanTick(t, run[0]) && CanTickAll(k, DoTick(k, t, run[0]), run[1..]))
  }

  function TickAll(k: Limits, t: Timed, run: seq<Tick>): Timed
    requires CanTickAll(k, t, run)
    decreases |run|
  {
    if run == [] then t else TickAll(k, DoTick(k, t, run[0]), run[1..])
  }

  function Steps(run: seq<Tick>): seq<Step> {
    if run == [] then [] else [run[0].step] + Steps(run[1..])
  }

  /** Without its clock, a run with a clock is a run. */
  lemma {:induction false} TimedRunsAreRuns(k: Limits, t: Timed, run: seq<Tick>)
    requires CanTickAll(k, t, run)
    ensures Legal(t.s, Steps(run)) && Run(t.s, Steps(run)) == TickAll(k, t, run).s
    decreases |run|
  {
    if run != [] {
      TimedRunsAreRuns(k, DoTick(k, t, run[0]), run[1..]);
      assert Steps(run)[1..] == Steps(run[1..]);
    }
  }

  function LongestGap(k: Limits): real {
    INTERVAL + 3.0 * k.limit + 2.0 * k.slack
  }

  ghost predicate GapsAtMost(times: seq<real>, gap: real) {
    forall i :: 0 <= i < |times| - 1 ==> times[i + 1] - times[i] <= gap
  }

  /** How long after the last refresh each stretch of a cycle may end. */
  ghost predicate PhaseTimes(k: Limits, t: Timed, last: real) {
    if t.s.owner.Connecting? then t.due <= last + 2.0 * k.limit
    else if t.s.keeper.WantLock? || t.s.keeper.LoopHead? then t.due <= last + 2.0 * k.limit + k.slack
    else if t.s.keeper.Renewing? then
      t.due == t.began + k.limit && t.began <= last + INTERVAL + 2.0 * k.limit + 2.0 * k.slack
    else t.due == t.wakeup + k.slack && t.wakeup <= last + INTERVAL + 2.0 * k.limit + k.slack
  }

  ghost predicate TimeInv(k: Limits, t: Timed) {
    && (!t.s.startCalled ==> t.refreshes == [])
    && (t.s.owner.Creating? ==> t.refreshes == [] && t.due == t.began + k.limit)
    && (Watched(t.s) && !t.s.owner.Creating? ==>
          && t.refreshes != []
          && t.now <= t.due
          && |t.refreshes| == 1 + t.s.renewals - (if t.s.keeper.Renewing? then 1 else 0)
          && GapsAtMost(t.refreshes, LongestGap(k))
          && PhaseTimes(k, t, t.refreshes[|t.refreshes| - 1]))
  }

  ghost predicate ValidLimits(k: Limits) {
    k.limit >= 0.0 && k.slack >= 0.0
  }

  lemma OwnerTime(k: Limits, t: Timed, x: Tick)
    requires ValidLimits(k) && Inv(t.s) && TimeInv(k, t) && CanTick(t, x) && x.step.OwnerStep?
    ensures TimeInv(k, DoTick(k, t, x))
  {
  }

  lemma RenewedTime(k: Limits, t: Timed, x: Tick)
    requires ValidLimits(k) && Inv(t.s) && TimeInv(k, t) && CanTick(t, x) && CompletesRefresh(t.s, x.step)
    requires x.step.KeeperStep?
    ensures TimeInv(k, DoTick(k, t, x))
  {
    var times := t.refreshes + [x.seen];
    if Watched(t.s) { assert x.seen - t.refreshes[|t.refreshes| - 1] <= LongestGap(k); }
  }

  lemma KeeperTime(k: Limits, t: Timed, x: Tick)
    requires ValidLimits(k) && Inv(t.s) && TimeInv(k, t) && CanTick(t, x) && x.step.KeeperStep?
    requires !CompletesRefresh(t.s, x.step)
    ensures TimeInv(k, DoTick(k, t, x))
  {
  }

  lemma OtherTime(k: Limits, t: Timed, x: Tick)
    requires ValidLimits(k) && Inv(t.s) && TimeInv(k, t) && CanTick(t, x) && !x.step.OwnerStep? && !x.step.KeeperStep?
    ensures TimeInv(k, DoTick(k, t, x))
  {
  }

  lemma StepTime(k: Limits, t: Timed, x: Tick)
    requires ValidLimits(k) && Inv(t.s) && TimeInv(k, t) && CanTick(t, x)
    ensures TimeInv(k, DoTick(k, t, x))
  {
    if x.step.OwnerStep? { OwnerTime(k, t, x); }
    else if !x.step.KeeperStep? { OtherTime(k, t, x); }
    else if CompletesRefresh(t.s, x.step) { RenewedTime(k, t, x); }
    else { KeeperTime(k, t, x); }
  }

  lemma {:induction false} RunTime(k: Limits, t: Timed, run: seq<Tick>)
    requires ValidLimits(k) && Inv(t.s) && TimeInv(k, t) && CanTickAll(k, t, run)
    ensures Inv(TickAll(k, t, run).s) && TimeInv(k, TickAll(k, t, run))
    decreases |run|
  {
    if run != [] {
      StepInv(t.s, run[0].step);
      StepTime(k, t, run[0]);
      RunTime(k, DoTick(k, t, run[0]), run[1..]);
    }
  }

  /** The refreshes are the create and one for each automatic renewal that has ended. */
  lemma RefreshesAreRenewals(k: Limits, run: seq<Tick>)
    requires ValidLimits(k) && CanTickAll(k, TIMED_INIT, run)
    ensures var t := TickAll(k, TIMED_INIT, run);
      Watched(t.s) ==>
        |t.refreshes| + (if t.s.keeper.Renewing? then 1 else 0)
          == t.s.renewals + (if t.s.owner.Creating? then 0 else 1)
  {
    RunTime(k, TIMED_INIT, run);
  }

  /** No gap between refreshes, and no wait since the last one, reaches the key's lifetime. */
  ghost predicate Unexpired(t: Timed) {
    && (forall i :: 0 <= i < |t.refreshes| - 1 ==> t.refreshes[i + 1] - t.refreshes[i] < EXPIRY)
    && (t.refreshes != [] ==> t.now - t.refreshes[|t.refreshes| - 1] < EXPIRY)
  }

  /** In every run with a clock, until the stop flag is set. */
  ghost predicate NeverExpires(k: Limits) {
    forall run :: CanTickAll(k, TIMED_INIT, run) && Watched(TickAll(k, TIMED_INIT, run).s) ==>
      Unexpired(TickAll(k, TIMED_INIT, run))
  }

  lemma {:induction false} TickAppend(k: Limits, t: Timed, run: seq<Tick>, x: Tick)
    requires CanTickAll(k, t, run) && CanTick(TickAll(k, t, run), x)
    ensures CanTickAll(k, t, run + [x]) && TickAll(k, t, run + [x]) == DoTick(k, TickAll(k, t, run), x)
    decreases |run|
  {
    if run != [] {
      assert (run + [x])[1..] == run[1..] + [x];
      TickAppend(k, DoTick(k, t, run[0]), run[1..], x);
    }
  }

  lemma ThenAt(k: Limits, run: seq<Tick>, now: Timed, x: Tick) returns (run': seq<Tick>, next: Timed)
    requires CanTickAll(k, TIMED_INIT, run) && TickAll(k, TIMED_INIT, run) == now && CanTick(now, x)
    ensures next == DoTick(k, now, x) && CanTickAll(k, TIMED_INIT, run') && TickAll(k, TIMED_INIT, run') == next
  {
    TickAppend(k, TIMED_INIT, run, x);
    run', next := run + [x], DoTick(k, now, x);
  }

  /** A start that uses up its limits, refreshed as early as possible. */
  lemma SlowStart(k: Limits) returns (run: seq<Tick>, t: Timed)
    requires ValidLimits(k)
    ensures CanTickAll(k, TIMED_INIT, run) && TickAll(k, TIMED_INIT, run) == t
    ensures t.s == INIT.(startCalled := true, calls := [Create], hasKey := true, keeper := WantLock)
    ensures t.now == 2.0 * k.limit && t.due == t.now + k.slack && t.refreshes == [0.0]
  {
    run, t := ThenAt(k, [], TIMED_INIT, Tick(Start, 0.0, 0.0));
    run, t := ThenAt(k, run, t, Tick(OwnerStep(true), k.limit, 0.0));
    run, t := ThenAt(k, run, t, Tick(OwnerStep(true), 2.0 * k.limit, 0.0));
  }

  lemma SlowSleep(k: Limits) returns (run: seq<Tick>, t: Timed)
    requires ValidLimits(k)
    ensures CanTickAll(k, TIMED_INIT, run) && TickAll(k, TIMED_INIT, run) == t
    ensures t.s == INIT.(startCalled := true, calls := [Create], hasKey := true, keeper := Sleeping(false))
    ensures t.now == 2.0 * k.limit + k.slack && t.wakeup == t.now + INTERVAL && t.due == t.wakeup + k.slack
    ensures t.refreshes == [0.0]
  {
    run, t := SlowStart(k);
    var at := t.now + k.slack;
    run, t := ThenAt(k, run, t, Tick(KeeperStep(true), at, 0.0));
    run, t := ThenAt(k, run, t, Tick(KeeperStep(true), at, 0.0));
    run, t := ThenAt(k, run, t, Tick(KeeperStep(true), at, 0.0));
  }

  lemma SlowWake(k: Limits) returns (run: seq<Tick>, t: Timed)
    requires ValidLimits(k)
    ensures CanTickAll(k, TIMED_INIT, run) && TickAll(k, TIMED_INIT, run) == t
    ensures t.s.keeper.Renewing? && t.s.owner.Idle? && !t.s.stopFlag && !t.s.crashed
    ensures t.now == 2.0 * k.limit + 2.0 * k.slack + INTERVAL && t.due == t.now + k.limit && t.began == t.now
    ensures t.refreshes == [0.0]
  {
    run, t := SlowSleep(k);
    var at := t.due;
    run, t := ThenAt(k, run, t, Tick(TimeOut, at, 0.0));
    run, t := ThenAt(k, run, t, Tick(KeeperStep(true), at, 0.0));
    run, t := ThenAt(k, run, t, Tick(KeeperStep(true), at, 0.0));
    run, t := ThenAt(k, run, t, Tick(KeeperStep(true), at, 0.0));
  }

  /** The longest gap is reached. */
  lemma SlowRenewal(k: Limits) returns (run: seq<Tick>, t: Timed)
    requires ValidLimits(k)
    ensures CanTickAll(k, TIMED_INIT, run) && TickAll(k, TIMED_INIT, run) == t
    ensures Watched(t.s) && t.refreshes == [0.0, LongestGap(k)]
  {
    run, t := SlowWake(k);
    run, t := ThenAt(k, run, t, Tick(KeeperStep(true), t.due, t.due));
  }

  /**
   With a create, connect and renewals of at most `limit` minutes each and a thread that is at most `slack` minutes
   late, the key is refreshed within its 60 minutes in every run until it is stopped, iff 25 + 3 * limit + 2 * slack
   is below 60.
   */
  lemma RefreshedBeforeExpiry(k: Limits)
    requires ValidLimits(k)
    ensures NeverExpires(k) <==> 25.0 + 3.0 * k.limit + 2.0 * k.slack < 60.0
  {
    if LongestGap(k) < EXPIRY {
      forall run | CanTickAll(k, TIMED_INIT, run) && Watched(TickAll(k, TIMED_INIT, run).s)
        ensures Unexpired(TickAll(k, TIMED_INIT, run))
      {
        RunTime(k, TIMED_INIT, run);
      }
    } else {
      var run, t := SlowRenewal(k);
      assert t.refreshes[1] - t.refreshes[0] == LongestGap(k);
      assert !Unexpired(t);
    }
  }
}
