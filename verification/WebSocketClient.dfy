/**
 The WebSocket client from a successful connect to the end of `disconnect`: handlers that run one at a time
 on the I/O thread, and the thread that disconnects.  A handler is broken up at its loads of the stop flag,
 so the flag may be set between any two of them.  Completions of reads, timers, connects and pings, and
 their success, are up to the environment.
 */
module WebSocketClient {
  import opened Wrappers
  import opened Backoffs

  datatype Config = Config(reconnectInterval: int, maxAttempts: int)

  /** How a read ends: a text message, a message of another kind, or an error. */
  datatype Read = Text(msg: string) | NotText | ReadError

  /** What the I/O thread is about to do. */
  datatype Io =
    | Waiting
    | StartRead(thenPing: bool)
    | ReadDone(result: Read)
    | Deliver(result: Read)
    | ReadFailed
    | RecheckStop
    | Backoff(attempt: nat, delay: int)
    | ArmReconnect(attempt: nat, delay: int)
    | ReconnectFired(attempt: nat, delay: int)
    | Connect(attempt: nat, delay: int)
    | ArmPing
    | PingFired
    | SendPing
    | Exited

  datatype Disconnecter = NotCalled | StopStored | Disconnected | PingCancelled | ClosePosted | Joined

  datatype Wait = Pending | Expired | Cancelled

  datatype Timer = Timer(attempt: nat, delay: int)

  /** The current ping timer, and the waits on it and on its predecessors whose handlers have not run. */
  datatype Pings = Pings(timer: Option<nat>, waits: map<nat, Wait>, next: nat)

  /**
   What a run has done: messages given to the callback, how many of them and of the connect attempts came after the
   stop flag was set, give-up reports, the delays of the current outage's timers, and whether a connect succeeded
   after disconnect had cleared `connected`.
   */
  datatype History = History(
    delivered: seq<string>,
    lateMessages: nat,
    lateAttempts: nat,
    giveUps: nat,
    waits: seq<int>,
    lateSuccess: bool)

  datatype State = State(
    io: Io,
    main: Disconnecter,
    shouldStop: bool,
    connected: bool,
    pendingReads: nat,
    timers: seq<Timer>,
    ping: Pings,
    hist: History)

  datatype Step =
    | CompleteRead(result: Read)
    | FireReconnect(i: nat)
    | ExpirePing(id: nat)
    | RunPing(id: nat)
    | Advance(ok: bool)
    | RunClose
    | RunOut
    | Disconnect

  /** `do_connect` has succeeded and is about to start the read loop and the ping timer. */
  const CONNECTED :=
    State(StartRead(true), NotCalled, false, true, 0, [], Pings(None, map[], 0), History([], 0, 0, 0, [], false))

  predicate Enabled(s: State, step: Step) {
    match step
    case CompleteRead(_) => s.io.Waiting? && s.pendingReads > 0
    case FireReconnect(i) => s.io.Waiting? && i < |s.timers|
    case ExpirePing(id) => id in s.ping.waits && s.ping.waits[id].Pending? && !s.io.Exited?
    case RunPing(id) => s.io.Waiting? && id in s.ping.waits && !s.ping.waits[id].Pending?
    case Advance(_) => !s.io.Waiting? && !s.io.Exited?
    case RunClose => s.io.Waiting? && s.main.ClosePosted?
    case RunOut =>
      s.io.Waiting? && s.pendingReads == 0 && s.timers == [] && s.ping.waits == map[] && !s.main.ClosePosted?
    case Disconnect => !s.main.Joined? && (s.main.ClosePosted? ==> s.io.Exited?)
  }

  /** Destroying or cancelling a timer turns its pending wait into a cancelled one. */
  function CancelWait(p: Pings): map<nat, Wait> {
    match p.timer
    case Some(id) => if id in p.waits && p.waits[id].Pending? then p.waits[id := Cancelled] else p.waits
    case None => p.waits
  }

  function Delivered(h: History, msg: string, late: bool): History {
    h.(delivered := h.delivered + [msg], lateMessages := if late then h.lateMessages + 1 else h.lateMessages)
  }

  /** The I/O thread's next stretch up to and including one load of the stop flag or one external call. */
  function Advanced(c: Config, s: State, ok: bool): State
    requires !s.io.Waiting? && !s.io.Exited?
  {
    match s.io
    case StartRead(thenPing) =>
      s.(pendingReads := if s.shouldStop then s.pendingReads else s.pendingReads + 1,
         io := if thenPing then ArmPing else Waiting)
    case ReadDone(result) =>
      s.(io := if s.shouldStop then Waiting else if result.ReadError? then ReadFailed else Deliver(result))
    case Deliver(result) =>
      s.(hist := if result.Text? then Delivered(s.hist, result.msg, s.shouldStop) else s.hist,
         io := StartRead(false))
    case ReadFailed => s.(connected := false, io := RecheckStop)
    case RecheckStop => s.(io := if s.shouldStop then Waiting else Backoff(0, c.reconnectInterval))
    case Backoff(attempt, delay) => s.(io := if s.shouldStop then Waiting else ArmReconnect(attempt, delay))
    case ArmReconnect(attempt, delay) =>
      if attempt >= c.maxAttempts then s.(hist := s.hist.(giveUps := s.hist.giveUps + 1), io := Waiting)
      else
        var h := s.hist.(waits := s.hist.waits + [delay]);
        s.(timers := s.timers + [Timer(attempt, delay)], hist := h, io := Waiting)
    case ReconnectFired(attempt, delay) => s.(io := if s.shouldStop then Waiting else Connect(attempt, delay))
    case Connect(attempt, delay) =>
      var h := if s.shouldStop then s.hist.(lateAttempts := s.hist.lateAttempts + 1) else s.hist;
      if ok then
        var late := h.lateSuccess || !(s.main.NotCalled? || s.main.StopStored?);
        s.(connected := true, hist := h.(waits := [], lateSuccess := late), io := StartRead(true))
      else
        s.(connected := false, hist := h, io := Backoff(attempt + 1, NextDelay(delay)))
    case ArmPing =>
      var id := s.ping.next;
      s.(ping := Pings(Some(id), CancelWait(s.ping)[id := Pending], id + 1), io := Waiting)
    case PingFired => s.(io := if s.shouldStop then Waiting else if s.connected then SendPing else ArmPing)
    case SendPing =>
      if ok then s.(io := ArmPing)
      else s.(connected := false, io := Backoff(0, c.reconnectInterval))
  }

  function Next(c: Config, s: State, step: Step): State
    requires Enabled(s, step)
  {
    match step
    case CompleteRead(result) => s.(pendingReads := s.pendingReads - 1, io := ReadDone(result))
    case FireReconnect(i) =>
      s.(timers := s.timers[..i] + s.timers[i + 1..], io := ReconnectFired(s.timers[i].attempt, s.timers[i].delay))
    case ExpirePing(id) => s.(ping := s.ping.(waits := s.ping.waits[id := Expired]))
    case RunPing(id) =>
      s.(ping := s.ping.(waits := s.ping.waits - {id}), io := if s.ping.waits[id].Expired? then PingFired else Waiting)
    case Advance(ok) => Advanced(c, s, ok)
    case RunClose => s.(io := Exited)
    case RunOut => s.(io := Exited)
    case Disconnect =>
      match s.main {
        case NotCalled => s.(shouldStop := true, main := StopStored)
        case StopStored => s.(connected := false, main := Disconnected)
        case Disconnected => s.(ping := s.ping.(waits := CancelWait(s.ping)), main := PingCancelled)
        case PingCancelled => s.(main := ClosePosted)
        case _ => s.(main := Joined)
      }
  }

  predicate Legal(c: Config, s: State, run: seq<Step>)
    decreases |run|
  {
    run == [] || (Enabled(s, run[0]) && Legal(c, Next(c, s, run[0]), run[1..]))
  }

  function Run(c: Config, s: State, run: seq<Step>): State
    requires Legal(c, s, run)
    decreases |run|
  {
    if run == [] then s else Run(c, Next(c, s, run[0]), run[1..])
  }

  // ---------------------------------------------------------------------------------------------
  // One activity: an outstanding read, a pending reconnect timer, or a handler on its way to either

  predicate OnTheWay(io: Io) {
    || io.StartRead? || io.ReadDone? || io.Deliver? || io.ReadFailed? || io.RecheckStop?
    || io.Backoff? || io.ArmReconnect? || io.ReconnectFired? || io.Connect?
  }

  function Activities(s: State): nat {
    s.pendingReads + |s.timers| + if OnTheWay(s.io) then 1 else 0
  }

  /** A failed ping starts a reconnect chain next to a read or chain that is still under way. */
  predicate PingFailsBesideActivity(s: State, step: Step) {
    step == Advance(false) && s.io.SendPing? && Activities(s) > 0
  }

  /** The activity is a reconnect chain. */
  predicate InOutage(s: State) {
    || s.timers != [] || s.io.RecheckStop?
    || s.io.Backoff? || s.io.ArmReconnect? || s.io.ReconnectFired? || s.io.Connect?
  }

  /**
   There is one activity until the client gives up or is told to stop, it gives up at most once, and until then it
   is connected just while it is not reconnecting.
   */
  ghost predicate SingleActivity(s: State) {
    && Activities(s) <= 1
    && (Activities(s) == 0 ==> s.shouldStop || s.hist.giveUps > 0)
    && (s.hist.giveUps > 0 ==> s.hist.giveUps == 1 && Activities(s) == 0 && !s.connected && !s.io.SendPing?)
    && (InOutage(s) ==> !s.connected)
    && (!s.shouldStop ==> s.main.NotCalled? && (s.hist.giveUps == 0 && !InOutage(s) ==> s.connected))
  }

  /** How many activities an advance of the I/O thread adds or ends. */
  lemma AdvanceActivities(c: Config, s: State, ok: bool)
    requires Enabled(s, Advance(ok))
    ensures var s' := Advanced(c, s, ok);
      && Activities(s') <= Activities(s) + (if s.io.SendPing? && !ok then 1 else 0)
      && (!s.shouldStop && !s.io.ArmReconnect? ==>
            Activities(s') == Activities(s) + (if s.io.SendPing? && !ok then 1 else 0))
      && (s.io.ArmReconnect? ==>
            Activities(s') == Activities(s) - (if s.io.attempt >= c.maxAttempts then 1 else 0))
      && (s.io.SendPing? && !ok ==> Activities(s') == Activities(s) + 1)
  {
  }

  lemma AdvanceSingle(c: Config, s: State, ok: bool)
    requires SingleActivity(s) && Enabled(s, Advance(ok)) && !PingFailsBesideActivity(s, Advance(ok))
    ensures SingleActivity(Advanced(c, s, ok))
  {
    AdvanceActivities(c, s, ok);
  }

  lemma EnvironmentSingle(c: Config, s: State, step: Step)
    requires SingleActivity(s) && Enabled(s, step) && !step.Advance?
    ensures SingleActivity(Next(c, s, step))
  {
  }

  /** One step keeps a single activity iff it is not a ping that fails beside it. */
  lemma StepSingle(c: Config, s: State, step: Step)
    requires SingleActivity(s) && Enabled(s, step)
    ensures !PingFailsBesideActivity(s, step) ==> SingleActivity(Next(c, s, step))
    ensures PingFailsBesideActivity(s, step) ==> Activities(Next(c, s, step)) == 2
  {
    if PingFailsBesideActivity(s, step) {
      AdvanceActivities(c, s, step.ok);
    } else if step.Advance? {
      AdvanceSingle(c, s, step.ok);
    } else {
      EnvironmentSingle(c, s, step);
    }
  }

  predicate NoPingFailsBesideActivity(c: Config, s: State, run: seq<Step>)
    requires Legal(c, s, run)
    decreases |run|
  {
    run == [] || (!PingFailsBesideActivity(s, run[0]) && NoPingFailsBesideActivity(c, Next(c, s, run[0]), run[1..]))
  }

  ghost predicate SingleThroughout(c: Config, s: State, run: seq<Step>)
    requires Legal(c, s, run)
    decreases |run|
  {
    SingleActivity(s) && (run == [] || SingleThroughout(c, Next(c, s, run[0]), run[1..]))
  }

  lemma {:induction false} SingleActivityFrom(c: Config, s: State, run: seq<Step>)
    requires SingleActivity(s) && Legal(c, s, run)
    ensures SingleThroughout(c, s, run) <==> NoPingFailsBesideActivity(c, s, run)
    decreases |run|
  {
    if run != [] {
      StepSingle(c, s, run[0]);
      if SingleActivity(Next(c, s, run[0])) { SingleActivityFrom(c, Next(c, s, run[0]), run[1..]); }
    }
  }

  // ---------------------------------------------------------------------------------------------
  // At most one ping timer has a wait pending

  ghost predicate PingInv(s: State) {
    && (forall id :: id in s.ping.waits ==> id < s.ping.next)
    && (forall id :: id in s.ping.waits && s.ping.waits[id].Pending? ==> s.ping.timer == Some(id))
  }

  predicate IsPending(s: State, id: nat) {
    id in s.ping.waits && s.ping.waits[id].Pending?
  }

  lemma CancelKeepsPings(s: State)
    requires PingInv(s)
    ensures forall id :: id in CancelWait(s.ping) ==> id < s.ping.next
    ensures forall id :: id in CancelWait(s.ping) ==> !CancelWait(s.ping)[id].Pending?
  {
  }

  lemma ArmedPing(c: Config, s: State, ok: bool)
    requires PingInv(s) && s.io.ArmPing?
    ensures PingInv(Advanced(c, s, ok))
  {
    CancelKeepsPings(s);
  }

  lemma AdvancePing(c: Config, s: State, ok: bool)
    requires Enabled(s, Advance(ok)) && !s.io.ArmPing?
    ensures Advanced(c, s, ok).ping == s.ping
  {
  }

  lemma StepPing(c: Config, s: State, step: Step)
    requires PingInv(s) && Enabled(s, step)
    ensures PingInv(Next(c, s, step))
  {
    match step
    case Advance(ok) => if s.io.ArmPing? { ArmedPing(c, s, ok); } else { AdvancePing(c, s, ok); }
    case Disconnect => CancelKeepsPings(s);
    case _ =>
  }

  /** The ping timer will fire, or a handler is about to arm it again. */
  predicate PingLive(s: State) {
    || s.io == StartRead(true) || s.io.ArmPing? || s.io.PingFired? || s.io.SendPing?
    || (s.ping.timer.Some? && s.ping.timer.value in s.ping.waits && !s.ping.waits[s.ping.timer.value].Cancelled?)
  }

  predicate PingFails(s: State, step: Step) {
    step == Advance(false) && s.io.SendPing?
  }

  /** Before the stop flag, nothing but a failed ping ends the pings, and a failed ping starts a reconnect chain. */
  lemma StepPingLive(c: Config, s: State, step: Step)
    requires StopInv(s) && Enabled(s, step) && !Next(c, s, step).shouldStop
    ensures !s.shouldStop && s.hist.giveUps <= Next(c, s, step).hist.giveUps
    ensures PingLive(s) && !PingFails(s, step) ==> PingLive(Next(c, s, step))
    ensures (PingLive(s) || InOutage(s)) && Next(c, s, step).hist.giveUps == s.hist.giveUps ==>
      PingLive(Next(c, s, step)) || InOutage(Next(c, s, step))
  {
    if step.Advance? && !s.io.ArmPing? { AdvancePing(c, s, step.ok); }
  }

  // ---------------------------------------------------------------------------------------------
  // Stopping

  /** The handler has found the stop flag clear and acts on it. */
  predicate PastCheck(io: Io) {
    io.Deliver? || io.ReadFailed? || io.ArmReconnect? || io.Connect? || io.SendPing?
  }

  ghost predicate StopInv(s: State) {
    && (s.main.NotCalled? <==> !s.shouldStop)
    && (!s.shouldStop ==> s.hist.lateMessages == 0 && s.hist.lateAttempts == 0)
    && s.hist.lateMessages + s.hist.lateAttempts + (if PastCheck(s.io) then 1 else 0) <= 1
    && (s.main.NotCalled? || s.main.StopStored? ==> !s.hist.lateSuccess)
    && (!(s.main.NotCalled? || s.main.StopStored?) ==> (s.connected <==> s.hist.lateSuccess))
    && (s.hist.lateSuccess ==> s.hist.lateAttempts == 1)
    && (s.main.Joined? ==> s.io.Exited?)
  }

  lemma AdvanceStop(c: Config, s: State, ok: bool)
    requires StopInv(s) && Enabled(s, Advance(ok))
    ensures StopInv(Advanced(c, s, ok))
  {
  }

  lemma StepStop(c: Config, s: State, step: Step)
    requires StopInv(s) && Enabled(s, step)
    ensures StopInv(Next(c, s, step))
  {
    match step
    case Advance(ok) => AdvanceStop(c, s, ok);
    case _ =>
  }

  // ---------------------------------------------------------------------------------------------
  // Backoff

  ghost predicate WaitsAre(c: Config, waits: seq<int>, n: nat) {
    |waits| == n && forall k :: 0 <= k < n ==> waits[k] == DelayAt(c.reconnectInterval, k)
  }

  function Attempts(c: Config): nat {
    if c.maxAttempts < 0 then 0 else c.maxAttempts
  }

  /** The I/O thread is in a chain: what it knows of the attempt is what the backoff rule says. */
  ghost predicate HandlerInv(c: Config, s: State) {
    match s.io
    case Backoff(a, d) =>
      s.shouldStop || (a <= Attempts(c) && d == DelayAt(c.reconnectInterval, a) && WaitsAre(c, s.hist.waits, a))
    case ArmReconnect(a, d) =>
      a <= Attempts(c) && d == DelayAt(c.reconnectInterval, a) && WaitsAre(c, s.hist.waits, a)
    case ReconnectFired(a, d) =>
      a < Attempts(c) && d == DelayAt(c.reconnectInterval, a) && WaitsAre(c, s.hist.waits, a + 1)
    case Connect(a, d) =>
      a < Attempts(c) && d == DelayAt(c.reconnectInterval, a) && WaitsAre(c, s.hist.waits, a + 1)
    case Waiting => s.pendingReads > 0 ==> s.hist.waits == []
    case ArmPing => s.pendingReads > 0 ==> s.hist.waits == []
    case PingFired => s.pendingReads > 0 ==> s.hist.waits == []
    case SendPing => s.pendingReads > 0 ==> s.hist.waits == []
    case Exited => true
    case _ => s.hist.waits == []
  }

  ghost predicate ChainInv(c: Config, s: State) {
    && HandlerInv(c, s)
    && (forall i :: 0 <= i < |s.timers| ==>
          && s.timers[i].attempt < Attempts(c)
          && s.timers[i].delay == DelayAt(c.reconnectInterval, s.timers[i].attempt)
          && WaitsAre(c, s.hist.waits, s.timers[i].attempt + 1))
    && (s.hist.giveUps > 0 ==> WaitsAre(c, s.hist.waits, Attempts(c)))
  }

  /** The delays of the current outage, whether or not it still goes on. */
  ghost predicate WaitsInv(c: Config, waits: seq<int>) {
    WaitsAre(c, waits, |waits|) && |waits| <= Attempts(c)
  }

  lemma StepWaits(c: Config, s: State, step: Step)
    requires ChainInv(c, s) && WaitsInv(c, s.hist.waits) && Enabled(s, step)
    ensures WaitsInv(c, Next(c, s, step).hist.waits)
  {
  }

  lemma ArmChain(c: Config, s: State, ok: bool)
    requires SingleActivity(s) && ChainInv(c, s) && s.io.ArmReconnect?
    ensures ChainInv(c, Advanced(c, s, ok))
  {
    var s' := Advanced(c, s, ok);
    assert s.timers == [] && s.pendingReads == 0;
    if s.io.attempt < c.maxAttempts { assert WaitsAre(c, s'.hist.waits, s.io.attempt + 1); }
  }

  lemma ConnectChain(c: Config, s: State, ok: bool)
    requires SingleActivity(s) && ChainInv(c, s) && s.io.Connect?
    ensures ChainInv(c, Advanced(c, s, ok))
  {
    assert s.timers == [] && s.pendingReads == 0;
    assert DelayAt(c.reconnectInterval, s.io.attempt + 1) == NextDelay(s.io.delay);
  }

  lemma QuietChain(c: Config, s: State, ok: bool)
    requires SingleActivity(s) && ChainInv(c, s) && Enabled(s, Advance(ok))
    requires !s.io.ArmReconnect? && !s.io.Connect? && !PingFailsBesideActivity(s, Advance(ok))
    ensures ChainInv(c, Advanced(c, s, ok))
  {
    var s' := Advanced(c, s, ok);
    assert s'.hist.waits == s.hist.waits && s'.timers == s.timers && s'.hist.giveUps == s.hist.giveUps;
  }

  lemma FireChain(c: Config, s: State, i: nat)
    requires SingleActivity(s) && ChainInv(c, s) && Enabled(s, FireReconnect(i))
    ensures ChainInv(c, Next(c, s, FireReconnect(i)))
  {
    assert s.timers == [s.timers[i]];
  }

  lemma EnvironmentChain(c: Config, s: State, step: Step)
    requires SingleActivity(s) && ChainInv(c, s) && Enabled(s, step) && !step.Advance? && !step.FireReconnect?
    ensures ChainInv(c, Next(c, s, step))
  {
    var s' := Next(c, s, step);
    assert s'.hist == s.hist && s'.timers == s.timers;
  }

  lemma StepChain(c: Config, s: State, step: Step)
    requires SingleActivity(s) && ChainInv(c, s) && Enabled(s, step) && !PingFailsBesideActivity(s, step)
    ensures ChainInv(c, Next(c, s, step))
  {
    if step.FireReconnect? { FireChain(c, s, step.i); }
    else if !step.Advance? { EnvironmentChain(c, s, step); }
    else if s.io.ArmReconnect? { ArmChain(c, s, step.ok); }
    else if s.io.Connect? { ConnectChain(c, s, step.ok); }
    else { QuietChain(c, s, step.ok); }
  }

  // ---------------------------------------------------------------------------------------------
  // The theorems, over every run from a successful connect

  /**
   At every moment there is exactly one activity until the client gives up or is told to stop, at most one
   give-up, and `connected` says whether the activity is a read, iff no ping failed beside an outstanding read or
   a reconnect chain.
   */
  lemma SingleActivityIffNoPingFailure(c: Config, run: seq<Step>)
    requires Legal(c, CONNECTED, run)
    ensures SingleThroughout(c, CONNECTED, run) <==> NoPingFailsBesideActivity(c, CONNECTED, run)
  {
    SingleActivityFrom(c, CONNECTED, run);
  }

  lemma {:induction false} BackoffFrom(c: Config, s: State, run: seq<Step>)
    requires SingleActivity(s) && ChainInv(c, s) && WaitsInv(c, s.hist.waits)
    requires Legal(c, s, run) && NoPingFailsBesideActivity(c, s, run)
    ensures var s' := Run(c, s, run); SingleActivity(s') && ChainInv(c, s') && WaitsInv(c, s'.hist.waits)
    decreases |run|
  {
    if run != [] {
      StepSingle(c, s, run[0]);
      StepChain(c, s, run[0]);
      StepWaits(c, s, run[0]);
      BackoffFrom(c, Next(c, s, run[0]), run[1..]);
    }
  }

  /**
   In every such run the k-th wait of an outage follows the backoff rule, no more than the configured number
   of attempts are armed, and a give-up comes exactly once and after all of them.
   */
  lemma OutagesFollowBackoff(c: Config, run: seq<Step>)
    requires Legal(c, CONNECTED, run) && NoPingFailsBesideActivity(c, CONNECTED, run)
    ensures var s := Run(c, CONNECTED, run);
      && (s.timers != [] ==> |s.timers| == 1 && s.timers[0].attempt < Attempts(c)
                             && WaitsAre(c, s.hist.waits, s.timers[0].attempt + 1))
      && (s.hist.giveUps > 0 ==> s.hist.giveUps == 1 && WaitsAre(c, s.hist.waits, Attempts(c)))
      && WaitsAre(c, s.hist.waits, |s.hist.waits|) && |s.hist.waits| <= Attempts(c)
  {
    BackoffFrom(c, CONNECTED, run);
  }

  /**
   Whatever the jitter makes of an outage's delays, each wait lies between 3/4 and 5/4 of its delay, and together
   they take at most 5/4 of the configured interval plus a minute for each further attempt.
   */
  lemma OutageWaitsAreBounded(c: Config, run: seq<Step>, waits: seq<int>)
    requires Legal(c, CONNECTED, run) && NoPingFailsBesideActivity(c, CONNECTED, run) && c.reconnectInterval >= 0
    requires |waits| == |Run(c, CONNECTED, run).hist.waits|
    requires forall k :: 0 <= k < |waits| ==> Jittered(Run(c, CONNECTED, run).hist.waits[k], waits[k])
    ensures forall k :: 0 <= k < |waits| ==>
      var delay := Run(c, CONNECTED, run).hist.waits[k]; 3 * 1000 * delay <= 4 * waits[k] <= 5 * 1000 * delay
    ensures waits != [] ==>
      4 * Sum(waits) <= 5 * 1000 * (c.reconnectInterval + 60 * (|waits| - 1)) && |waits| <= c.maxAttempts
  {
    OutagesFollowBackoff(c, run);
    var delays := Run(c, CONNECTED, run).hist.waits;
    forall k | 0 <= k < |waits| ensures 3 * 1000 * delays[k] <= 4 * waits[k] <= 5 * 1000 * delays[k] {
      DelaysStayNonNegative(c.reconnectInterval, k);
      JitterOfSeconds(delays[k], waits[k]);
    }
    if waits != [] { TotalWaitIsBounded(c.reconnectInterval, waits); }
  }

  lemma StepAfterStop(c: Config, s: State, step: Step)
    requires Enabled(s, step)
    ensures var s' := Next(c, s, step);
      && (s.shouldStop ==> s'.shouldStop && s'.pendingReads <= s.pendingReads)
      && (s.io.Exited? ==> s'.io.Exited? && s'.hist == s.hist)
  {
  }

  lemma {:induction false} StopFrom(c: Config, s: State, run: seq<Step>)
    requires StopInv(s) && PingInv(s) && Legal(c, s, run)
    ensures StopInv(Run(c, s, run)) && PingInv(Run(c, s, run))
    ensures s.shouldStop ==> Run(c, s, run).shouldStop && Run(c, s, run).pendingReads <= s.pendingReads
    ensures s.io.Exited? ==> var s' := Run(c, s, run);
      s'.io.Exited? && s'.hist.lateMessages == s.hist.lateMessages && s'.hist.lateAttempts == s.hist.lateAttempts
    decreases |run|
  {
    if run != [] {
      StepStop(c, s, run[0]);
      StepPing(c, s, run[0]);
      StepAfterStop(c, s, run[0]);
      StopFrom(c, Next(c, s, run[0]), run[1..]);
    }
  }

  /**
   However the stop flag falls between a handler's steps, at most one message or one reconnect attempt still
   goes through; none does once `disconnect` has joined the I/O thread; no read is started once the flag is
   set; at most one ping timer is pending; and the client then reports itself connected iff that attempt succeeded
   after `disconnect` cleared the flag.
   */
  lemma StoppingIsPrompt(c: Config, run: seq<Step>, later: seq<Step>)
    requires Legal(c, CONNECTED, run) && Legal(c, Run(c, CONNECTED, run), later)
    ensures var s, s' := Run(c, CONNECTED, run), Run(c, Run(c, CONNECTED, run), later);
      && s.hist.lateMessages + s.hist.lateAttempts <= 1
      && (s.shouldStop ==> s'.pendingReads <= s.pendingReads)
      && (forall i, j :: IsPending(s, i) && IsPending(s, j) ==> i == j)
      && (s.main.Joined? ==> s'.hist.lateMessages == s.hist.lateMessages && s'.hist.lateAttempts == s.hist.lateAttempts)
      && (s.main.Joined? ==> (s.connected <==> s.hist.lateSuccess) && (s.hist.lateSuccess ==> s.hist.lateAttempts == 1))
  {
    StopFrom(c, CONNECTED, run);
    StopFrom(c, Run(c, CONNECTED, run), later);
  }

  // ---------------------------------------------------------------------------------------------
  // `disconnect` returns

  function PendingPing(p: Pings): nat {
    if p.timer.Some? && p.timer.value in p.waits && p.waits[p.timer.value].Pending? then 1 else 0
  }

  /** Steps that a handler still leads to once the stop flag is set, up to the exit of the I/O thread. */
  function HandlerBudget(io: Io): nat {
    match io
    case Exited => 0
    case Waiting => 1
    case StartRead(thenPing) => if thenPing then 6 else 2
    case ReadDone(_) => 2
    case Deliver(_) => 3
    case ReadFailed => 3
    case RecheckStop => 2
    case Backoff(_, _) => 2
    case ArmReconnect(_, _) => 4
    case ReconnectFired(_, _) => 2
    case Connect(_, _) => 7
    case ArmPing => 5
    case PingFired => 2
    case SendPing => 6
  }

  function DisconnectBudget(main: Disconnecter): nat {
    match main
    case NotCalled => 5
    case StopStored => 4
    case Disconnected => 3
    case PingCancelled => 2
    case ClosePosted => 1
    case Joined => 0
  }

  function StopBudget(s: State): nat {
    DisconnectBudget(s.main) + HandlerBudget(s.io)
    + 2 * s.pendingReads + 2 * |s.timers| + 2 * |s.ping.waits| + PendingPing(s.ping)
  }

  lemma CancelKeepsCount(p: Pings)
    ensures |CancelWait(p)| == |p.waits|
  {
  }

  lemma RemovedCount(waits: map<nat, Wait>, id: nat)
    requires id in waits
    ensures |waits - {id}| == |waits| - 1
  {
    assert waits == (waits - {id})[id := waits[id]];
  }

  lemma StoppedAdvance(c: Config, s: State, ok: bool)
    requires PingInv(s) && s.shouldStop && Enabled(s, Advance(ok))
    ensures StopBudget(Advanced(c, s, ok)) < StopBudget(s)
  {
    if s.io.ArmPing? {
      CancelKeepsCount(s.ping);
      assert s.ping.next !in CancelWait(s.ping);
    } else {
      AdvancePing(c, s, ok);
    }
  }

  lemma StoppedPing(c: Config, s: State, id: nat)
    requires PingInv(s)
    ensures Enabled(s, ExpirePing(id)) ==> StopBudget(Next(c, s, ExpirePing(id))) < StopBudget(s)
    ensures Enabled(s, RunPing(id)) ==> StopBudget(Next(c, s, RunPing(id))) < StopBudget(s)
  {
    if id in s.ping.waits { RemovedCount(s.ping.waits, id); }
  }

  lemma StoppedDisconnect(c: Config, s: State)
    requires s.shouldStop && Enabled(s, Disconnect)
    ensures StopBudget(Next(c, s, Disconnect)) < StopBudget(s)
  {
    CancelKeepsCount(s.ping);
  }

  lemma StoppedStep(c: Config, s: State, step: Step)
    requires PingInv(s) && s.shouldStop && Enabled(s, step)
    ensures StopBudget(Next(c, s, step)) < StopBudget(s)
  {
    match step
    case Advance(ok) => StoppedAdvance(c, s, ok);
    case ExpirePing(id) => StoppedPing(c, s, id);
    case RunPing(id) => StoppedPing(c, s, id);
    case Disconnect => StoppedDisconnect(c, s);
    case _ =>
  }

  lemma {:induction false} StoppedRun(c: Config, s: State, run: seq<Step>)
    requires StopInv(s) && PingInv(s) && s.shouldStop && Legal(c, s, run)
    ensures |run| <= StopBudget(s) && StopInv(Run(c, s, run))
    decreases |run|
  {
    if run != [] {
      StoppedStep(c, s, run[0]);
      StepAfterStop(c, s, run[0]);
      StepStop(c, s, run[0]);
      StepPing(c, s, run[0]);
      StoppedRun(c, Next(c, s, run[0]), run[1..]);
    }
  }

  /**
   Once the stop flag is set, no schedule has more steps than the budget of that moment, timer expiries included;
   and until `disconnect` has joined the I/O thread, one of the two threads can move without waiting for the
   network or a timer.  So `disconnect` returns.
   */
  lemma DisconnectReturns(c: Config, run: seq<Step>, later: seq<Step>)
    requires Legal(c, CONNECTED, run) && Run(c, CONNECTED, run).shouldStop && Legal(c, Run(c, CONNECTED, run), later)
    ensures |later| <= StopBudget(Run(c, CONNECTED, run))
    ensures var s := Run(c, Run(c, CONNECTED, run), later);
      s.main.Joined? || Enabled(s, Disconnect) || Enabled(s, RunClose) || Enabled(s, Advance(true))
  {
    StopFrom(c, CONNECTED, run);
    StoppedRun(c, Run(c, CONNECTED, run), later);
  }

  // ---------------------------------------------------------------------------------------------
  // Pings go on until the stop flag

  lemma {:induction false} PingsFrom(c: Config, s: State, run: seq<Step>)
    requires StopInv(s) && Legal(c, s, run) && !Run(c, s, run).shouldStop
    ensures !s.shouldStop && s.hist.giveUps <= Run(c, s, run).hist.giveUps
    ensures (PingLive(s) || InOutage(s)) && Run(c, s, run).hist.giveUps == s.hist.giveUps ==>
      PingLive(Run(c, s, run)) || InOutage(Run(c, s, run))
    ensures SingleActivity(s) && PingLive(s) && NoPingFailsBesideActivity(c, s, run) ==> PingLive(Run(c, s, run))
    decreases |run|
  {
    if run != [] {
      StepStop(c, s, run[0]);
      PingsFrom(c, Next(c, s, run[0]), run[1..]);
      StepPingLive(c, s, run[0]);
      if SingleActivity(s) { StepSingle(c, s, run[0]); }
    }
  }

  /**
   Until it is told to stop, the client keeps pinging or is reconnecting unless it has given up; and if no ping
   failed beside an activity it keeps pinging even then.
   */
  lemma PingsGoOn(c: Config, run: seq<Step>)
    requires Legal(c, CONNECTED, run) && !Run(c, CONNECTED, run).shouldStop
    ensures var s := Run(c, CONNECTED, run);
      && (s.hist.giveUps == 0 ==> PingLive(s) || InOutage(s))
      && (NoPingFailsBesideActivity(c, CONNECTED, run) ==> PingLive(s))
  {
    PingsFrom(c, CONNECTED, run);
  }

  // ---------------------------------------------------------------------------------------------
  // Two runs worth knowing

  lemma {:induction false} RunAppend(c: Config, s: State, run: seq<Step>, step: Step)
    requires Legal(c, s, run) && Enabled(Run(c, s, run), step)
    ensures Legal(c, s, run + [step]) && Run(c, s, run + [step]) == Next(c, Run(c, s, run), step)
    decreases |run|
  {
    if run != [] {
      assert (run + [step])[1..] == run[1..] + [step];
      RunAppend(c, Next(c, s, run[0]), run[1..], step);
    }
  }

  lemma Continue(c: Config, start: State, run: seq<Step>, now: State, step: Step) returns (run': seq<Step>, next: State)
    requires Legal(c, start, run) && Run(c, start, run) == now && Enabled(now, step)
    ensures next == Next(c, now, step) && Legal(c, start, run') && Run(c, start, run') == next
  {
    RunAppend(c, start, run, step);
    run', next := run + [step], Next(c, now, step);
  }

  lemma Then(c: Config, run: seq<Step>, now: State, step: Step) returns (run': seq<Step>, next: State)
    requires Legal(c, CONNECTED, run) && Run(c, CONNECTED, run) == now && Enabled(now, step)
    ensures next == Next(c, now, step) && Legal(c, CONNECTED, run') && Run(c, CONNECTED, run') == next
  {
    run', next := Continue(c, CONNECTED, run, now, step);
  }

  /** The read loop and the ping timer have been started. */
  lemma Settle(c: Config) returns (run: seq<Step>, s: State)
    ensures Legal(c, CONNECTED, run) && Run(c, CONNECTED, run) == s
    ensures s == CONNECTED.(io := Waiting, pendingReads := 1, ping := Pings(Some(0), map[0 := Pending], 1))
  {
    run, s := Then(c, [], CONNECTED, Advance(true));
    run, s := Then(c, run, s, Advance(true));
  }

  lemma FailPing(c: Config) returns (run: seq<Step>, s: State)
    ensures Legal(c, CONNECTED, run) && Run(c, CONNECTED, run) == s
    ensures s.io == Backoff(0, c.reconnectInterval) && s.pendingReads == 1 && s.timers == [] && !s.shouldStop
  {
    run, s := Settle(c);
    run, s := Then(c, run, s, ExpirePing(0));
    run, s := Then(c, run, s, RunPing(0));
    run, s := Then(c, run, s, Advance(true));
    run, s := Then(c, run, s, Advance(false));
  }

  /** The first attempt of a chain waits its turn and passes its check of the stop flag. */
  lemma ReachConnect(c: Config, before: seq<Step>, s0: State) returns (run: seq<Step>, s: State)
    requires c.maxAttempts > 0 && s0.io.Backoff? && s0.io.attempt == 0 && s0.timers == [] && !s0.shouldStop
    requires Legal(c, CONNECTED, before) && Run(c, CONNECTED, before) == s0
    ensures Legal(c, CONNECTED, run) && Run(c, CONNECTED, run) == s
    ensures s.io == Connect(0, s0.io.delay) && s.pendingReads == s0.pendingReads && s.timers == []
    ensures s.main == s0.main && !s.shouldStop
  {
    run, s := Then(c, before, s0, Advance(true));
    run, s := Then(c, run, s, Advance(true));
    run, s := Then(c, run, s, FireReconnect(0));
    run, s := Then(c, run, s, Advance(true));
  }

  /** After a failed ping the old read is never withdrawn: reconnecting leaves two reads outstanding. */
  lemma PingFailureDoublesReads(c: Config) returns (run: seq<Step>, s: State)
    requires c.maxAttempts > 0
    ensures Legal(c, CONNECTED, run) && Run(c, CONNECTED, run) == s
    ensures s.pendingReads == 2 && Activities(s) == 2
  {
    run, s := FailPing(c);
    run, s := ReachConnect(c, run, s);
    run, s := Then(c, run, s, Advance(true));
    run, s := Then(c, run, s, Advance(true));
  }

  lemma FailRead(c: Config) returns (run: seq<Step>, s: State)
    ensures Legal(c, CONNECTED, run) && Run(c, CONNECTED, run) == s
    ensures s.io == Backoff(0, c.reconnectInterval) && s.main.NotCalled? && s.timers == [] && !s.shouldStop
  {
    run, s := Settle(c);
    run, s := Then(c, run, s, CompleteRead(ReadError));
    run, s := Then(c, run, s, Advance(true));
    run, s := Then(c, run, s, Advance(true));
    run, s := Then(c, run, s, Advance(true));
  }

  lemma ConnectBetweenStores(c: Config) returns (run: seq<Step>, s: State)
    requires c.maxAttempts > 0
    ensures Legal(c, CONNECTED, run) && Run(c, CONNECTED, run) == s
    ensures s.io.StartRead? && s.io.thenPing && s.main.Disconnected? && s.connected
  {
    run, s := FailRead(c);
    run, s := ReachConnect(c, run, s);
    run, s := Then(c, run, s, Disconnect);
    run, s := Then(c, run, s, Disconnect);
    run, s := Then(c, run, s, Advance(true));
  }

  /** `disconnect` returns and the client still says it is connected. */
  lemma ConnectedAfterDisconnect(c: Config) returns (run: seq<Step>, s: State)
    requires c.maxAttempts > 0
    ensures Legal(c, CONNECTED, run) && Run(c, CONNECTED, run) == s
    ensures s.main.Joined? && s.connected
  {
    run, s := ConnectBetweenStores(c);
    run, s := Then(c, run, s, Disconnect);
    run, s := Then(c, run, s, Disconnect);
    run, s := Then(c, run, s, Advance(true));
    run, s := Then(c, run, s, Advance(true));
    run, s := Then(c, run, s, RunClose);
    run, s := Then(c, run, s, Disconnect);
  }

  lemma {:induction false} NoLateAttempt(c: Config, s: State, run: seq<Step>)
    requires StopInv(s) && s.shouldStop && !s.io.Connect? && s.hist.lateAttempts == 0 && Legal(c, s, run)
    ensures StopInv(Run(c, s, run)) && Run(c, s, run).hist.lateAttempts == 0
    decreases |run|
  {
    if run != [] {
      StepStop(c, s, run[0]);
      NoLateAttempt(c, Next(c, s, run[0]), run[1..]);
    }
  }

  /** The connect succeeds after `disconnect` has cleared `connected`. */
  lemma LateConnect(c: Config, s0: State) returns (run: seq<Step>, s: State)
    requires s0.io.Connect? && s0.main.StopStored?
    ensures Legal(c, s0, run) && Run(c, s0, run) == s
    ensures s.io == StartRead(true) && s.main.ClosePosted? && s.connected
  {
    run, s := Continue(c, s0, [], s0, Disconnect);
    run, s := Continue(c, s0, run, s, Disconnect);
    run, s := Continue(c, s0, run, s, Disconnect);
    run, s := Continue(c, s0, run, s, Advance(true));
  }

  lemma LateConnectJoined(c: Config, s0: State) returns (run: seq<Step>, s: State)
    requires s0.io.Connect? && s0.main.StopStored?
    ensures Legal(c, s0, run) && Run(c, s0, run) == s
    ensures s.main.Joined? && s.connected
  {
    run, s := LateConnect(c, s0);
    run, s := Continue(c, s0, run, s, Advance(true));
    run, s := Continue(c, s0, run, s, Advance(true));
    run, s := Continue(c, s0, run, s, RunClose);
    run, s := Continue(c, s0, run, s, Disconnect);
  }

  /** Some continuation ends with `disconnect` returned and the client still connected. */
  ghost predicate MayStayConnected(c: Config, s: State) {
    exists later :: Legal(c, s, later) && Run(c, s, later).main.Joined? && Run(c, s, later).connected
  }

  /** After any run, `disconnect` may leave the client connected iff a handler was connecting as it stored the flag. */
  lemma StaysConnectedIffConnecting(c: Config, run: seq<Step>)
    requires Legal(c, CONNECTED, run) && Run(c, CONNECTED, run).main.NotCalled?
    ensures MayStayConnected(c, Next(c, Run(c, CONNECTED, run), Disconnect)) <==> Run(c, CONNECTED, run).io.Connect?
  {
    var s := Next(c, Run(c, CONNECTED, run), Disconnect);
    StopFrom(c, CONNECTED, run);
    StepStop(c, Run(c, CONNECTED, run), Disconnect);
    if s.io.Connect? {
      var later, end := LateConnectJoined(c, s);
      assert Legal(c, s, later) && Run(c, s, later) == end;
    } else {
      forall later | Legal(c, s, later) && Run(c, s, later).main.Joined? ensures !Run(c, s, later).connected {
        NoLateAttempt(c, s, later);
      }
    }
  }
}
