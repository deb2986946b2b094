/** What the WebSocket client delivers and does, measured against what the environment did in the run. */
module WebSocketTraces {
  import opened Wrappers
  import opened Backoffs
  import opened WebSocketClient

  // ---------------------------------------------------------------------------------------------
  // Deliveries, from the labels alone

  /**
   A reader of labels: whether disconnect has been called, the read whose handler has not yet looked at the stop flag,
   the texts and the number of errors of the reads whose handler found the flag clear.
   */
  datatype Monitor = Monitor(stopped: bool, unchecked: Option<Read>, texts: seq<string>, errors: nat)

  /** The first step of the I/O thread after a read completes is its handler's look at the flag. */
  function Observe(m: Monitor, step: Step): Monitor {
    match step
    case CompleteRead(result) => m.(unchecked := Some(result))
    case Advance(_) =>
      if m.unchecked.None? || m.stopped then m.(unchecked := None)
      else
        match m.unchecked.value {
          case Text(msg) => m.(unchecked := None, texts := m.texts + [msg])
          case NotText => m.(unchecked := None)
          case ReadError => m.(unchecked := None, errors := m.errors + 1)
        }
    case Disconnect => m.(stopped := true)
    case _ => m
  }

  function Observed(m: Monitor, run: seq<Step>): Monitor
    decreases |run|
  {
    if run == [] then m else Observed(Observe(m, run[0]), run[1..])
  }

  const FIRST := Monitor(false, None, [], 0)

  ghost predicate MonitorInv(s: State, m: Monitor) {
    && (m.stopped <==> s.shouldStop)
    && m.unchecked == (if s.io.ReadDone? then Some(s.io.result) else None)
    && m.texts == s.hist.delivered + (if s.io.Deliver? && s.io.result.Text? then [s.io.result.msg] else [])
    && (s.io.Deliver? ==> !s.io.result.ReadError?)
  }

  lemma StepMonitor(c: Config, s: State, m: Monitor, step: Step)
    requires MonitorInv(s, m) && StopInv(s) && Enabled(s, step)
    ensures MonitorInv(Next(c, s, step), Observe(m, step))
  {
  }

  lemma {:induction false} MonitorFrom(c: Config, s: State, m: Monitor, run: seq<Step>)
    requires MonitorInv(s, m) && StopInv(s) && Legal(c, s, run)
    ensures MonitorInv(Run(c, s, run), Observed(m, run)) && StopInv(Run(c, s, run))
    decreases |run|
  {
    if run != [] {
      StepMonitor(c, s, m, run[0]);
      StepStop(c, s, run[0]);
      MonitorFrom(c, Next(c, s, run[0]), Observe(m, run[0]), run[1..]);
    }
  }

  /**
   In every run the callback has been given exactly the texts of the reads that completed without error and whose
   handler found the stop flag clear, in order and once each, but for one whose handler is about to deliver it.
   */
  lemma DeliversWhatWasRead(c: Config, run: seq<Step>)
    requires Legal(c, CONNECTED, run)
    ensures var s, m := Run(c, CONNECTED, run), Observed(FIRST, run);
      m.texts == s.hist.delivered + if s.io.Deliver? && s.io.result.Text? then [s.io.result.msg] else []
  {
    MonitorFrom(c, CONNECTED, FIRST, run);
  }

  // ---------------------------------------------------------------------------------------------
  // Conservation

  /** Handlers that found the stop flag set and returned, by what they would have gone on with. */
  datatype Cuts = Cuts(readChains: nat, firstTries: nat, laterTries: nat, attempts: nat, pings: nat)

  /**
   How often each of these happened: a reconnect chain was about to arm its timer, for its first attempt or a later
   one; what connects and pings led to; which timers fired; and what the stop flag cut short.
   */
  datatype Tally = Tally(
    firstTries: nat,
    laterTries: nat,
    connects: nat,
    failedConnects: nat,
    timersFired: nat,
    pings: nat,
    failedPings: nat,
    pingsExpired: nat,
    pingsDue: nat,
    cut: Cuts)

  function Cut(io: Io, cut: Cuts): Cuts {
    match io
    case StartRead(_) => cut.(readChains := cut.readChains + 1)
    case ReadDone(_) => cut.(readChains := cut.readChains + 1)
    case RecheckStop => cut.(firstTries := cut.firstTries + 1)
    case Backoff(attempt, _) =>
      if attempt == 0 then cut.(firstTries := cut.firstTries + 1) else cut.(laterTries := cut.laterTries + 1)
    case ReconnectFired(_, _) => cut.(attempts := cut.attempts + 1)
    case PingFired => cut.(pings := cut.pings + 1)
    case _ => cut
  }

  function Counted(s: State, t: Tally, step: Step): Tally
    requires Enabled(s, step)
  {
    match step
    case Advance(ok) =>
      if s.io.Connect? then
        if ok then t.(connects := t.connects + 1) else t.(failedConnects := t.failedConnects + 1)
      else if s.io.ArmReconnect? then
        if s.io.attempt == 0 then t.(firstTries := t.firstTries + 1) else t.(laterTries := t.laterTries + 1)
      else if s.io.SendPing? then
        t.(pings := t.pings + 1, failedPings := if ok then t.failedPings else t.failedPings + 1)
      else if s.shouldStop then t.(cut := Cut(s.io, t.cut))
      else t
    case FireReconnect(_) => t.(timersFired := t.timersFired + 1)
    case RunPing(id) =>
      if !s.ping.waits[id].Expired? then t
      else t.(pingsExpired := t.pingsExpired + 1, pingsDue := if s.connected then t.pingsDue + 1 else t.pingsDue)
    case _ => t
  }

  function CountedIn(c: Config, s: State, t: Tally, run: seq<Step>): Tally
    requires Legal(c, s, run)
    decreases |run|
  {
    if run == [] then t else CountedIn(c, Next(c, s, run[0]), Counted(s, t, run[0]), run[1..])
  }

  const NOTHING := Tally(0, 0, 0, 0, 0, 0, 0, 0, 0, Cuts(0, 0, 0, 0, 0))

  function If(b: bool): nat {
    if b then 1 else 0
  }

  /** A read outstanding, about to start, or ended well and in its handler. */
  function ReadChains(s: State): nat {
    s.pendingReads + If(s.io.StartRead? || s.io.ReadDone? || s.io.Deliver?)
  }

  /** A reconnect timer, or a handler between the failure and the timer or between the timer and the connect. */
  function ReconnectChains(s: State): nat {
    |s.timers| + If(s.io.ReadFailed? || s.io.RecheckStop? || s.io.Backoff? || s.io.ArmReconnect?
                    || s.io.ReconnectFired? || s.io.Connect?)
  }

  ghost predicate ReadsConserved(s: State, m: Monitor, t: Tally) {
    ReadChains(s) + m.errors + t.cut.readChains == 1 + t.connects
  }

  ghost predicate ChainsConserved(s: State, m: Monitor, t: Tally) {
    ReconnectChains(s) + t.connects + s.hist.giveUps + t.cut.firstTries + t.cut.laterTries + t.cut.attempts
      == m.errors + t.failedPings
  }

  /** A chain's first attempt follows a failed read or ping, and each later one a failed connect. */
  ghost predicate TriesConserved(s: State, m: Monitor, t: Tally) {
    var trying := s.io.Backoff? || s.io.ArmReconnect?;
    && t.firstTries + t.cut.firstTries + If(s.io.ReadFailed? || s.io.RecheckStop? || (trying && s.io.attempt == 0))
         == m.errors + t.failedPings
    && t.laterTries + t.cut.laterTries + If(trying && s.io.attempt > 0) == t.failedConnects
  }

  ghost predicate TimersConserved(s: State, t: Tally) {
    |s.timers| + t.timersFired + s.hist.giveUps == t.firstTries + t.laterTries
  }

  ghost predicate AttemptsConserved(s: State, t: Tally) {
    t.connects + t.failedConnects + t.cut.attempts + If(s.io.ReconnectFired? || s.io.Connect?) == t.timersFired
  }

  ghost predicate PingsConserved(s: State, t: Tally) {
    && s.ping.next + t.failedPings + t.cut.pings
         + If(s.io == StartRead(true) || s.io.ArmPing? || s.io.PingFired? || s.io.SendPing?)
         == 1 + t.connects + t.pingsExpired
    && (!s.shouldStop ==> t.pings + If(s.io.SendPing? || (s.io.PingFired? && s.connected)) == t.pingsDue)
  }

  lemma ReadsByAdvance(c: Config, s: State, m: Monitor, t: Tally, ok: bool)
    requires MonitorInv(s, m) && Enabled(s, Advance(ok)) && ReadsConserved(s, m, t)
    ensures ReadsConserved(Advanced(c, s, ok), Observe(m, Advance(ok)), Counted(s, t, Advance(ok)))
  {
  }

  lemma ReadsByOthers(c: Config, s: State, m: Monitor, t: Tally, step: Step)
    requires MonitorInv(s, m) && StopInv(s) && Enabled(s, step) && !step.Advance? && ReadsConserved(s, m, t)
    ensures ReadsConserved(Next(c, s, step), Observe(m, step), Counted(s, t, step))
  {
  }

  lemma TimersByAdvance(c: Config, s: State, t: Tally, ok: bool)
    requires Enabled(s, Advance(ok)) && TimersConserved(s, t)
    ensures TimersConserved(Advanced(c, s, ok), Counted(s, t, Advance(ok)))
  {
  }

  lemma TimersByOthers(c: Config, s: State, t: Tally, step: Step)
    requires Enabled(s, step) && !step.Advance? && TimersConserved(s, t)
    ensures TimersConserved(Next(c, s, step), Counted(s, t, step))
  {
  }

  lemma TriesByAdvance(c: Config, s: State, m: Monitor, t: Tally, ok: bool)
    requires MonitorInv(s, m) && Enabled(s, Advance(ok)) && TriesConserved(s, m, t)
    ensures TriesConserved(Advanced(c, s, ok), Observe(m, Advance(ok)), Counted(s, t, Advance(ok)))
  {
  }

  lemma TriesByOthers(c: Config, s: State, m: Monitor, t: Tally, step: Step)
    requires MonitorInv(s, m) && StopInv(s) && Enabled(s, step) && !step.Advance? && TriesConserved(s, m, t)
    ensures TriesConserved(Next(c, s, step), Observe(m, step), Counted(s, t, step))
  {
  }

  lemma AttemptsByAdvance(c: Config, s: State, t: Tally, ok: bool)
    requires Enabled(s, Advance(ok)) && AttemptsConserved(s, t)
    ensures AttemptsConserved(Advanced(c, s, ok), Counted(s, t, Advance(ok)))
  {
  }

  lemma AttemptsByOthers(c: Config, s: State, t: Tally, step: Step)
    requires StopInv(s) && Enabled(s, step) && !step.Advance? && AttemptsConserved(s, t)
    ensures AttemptsConserved(Next(c, s, step), Counted(s, t, step))
  {
  }

  lemma PingsByAdvance(c: Config, s: State, t: Tally, ok: bool)
    requires Enabled(s, Advance(ok)) && PingsConserved(s, t)
    ensures PingsConserved(Advanced(c, s, ok), Counted(s, t, Advance(ok)))
  {
  }

  lemma PingsByOthers(c: Config, s: State, t: Tally, step: Step)
    requires StopInv(s) && Enabled(s, step) && !step.Advance? && PingsConserved(s, t)
    ensures PingsConserved(Next(c, s, step), Counted(s, t, step))
  {
  }

  ghost predicate Conserved(s: State, m: Monitor, t: Tally) {
    && ReadsConserved(s, m, t) && TriesConserved(s, m, t) && TimersConserved(s, t)
    && AttemptsConserved(s, t) && PingsConserved(s, t)
  }

  ghost predicate AllConserved(s: State, m: Monitor, t: Tally) {
    Conserved(s, m, t) && ChainsConserved(s, m, t)
  }

  lemma ChainsFollow(s: State, m: Monitor, t: Tally)
    requires Conserved(s, m, t)
    ensures ChainsConserved(s, m, t)
  {
  }

  lemma StepConserved(c: Config, s: State, m: Monitor, t: Tally, step: Step)
    requires MonitorInv(s, m) && Conserved(s, m, t) && StopInv(s) && Enabled(s, step)
    ensures Conserved(Next(c, s, step), Observe(m, step), Counted(s, t, step))
  {
    if step.Advance? {
      ReadsByAdvance(c, s, m, t, step.ok);
      TimersByAdvance(c, s, t, step.ok);
      TriesByAdvance(c, s, m, t, step.ok);
      AttemptsByAdvance(c, s, t, step.ok);
      PingsByAdvance(c, s, t, step.ok);
    } else {
      ReadsByOthers(c, s, m, t, step);
      TimersByOthers(c, s, t, step);
      TriesByOthers(c, s, m, t, step);
      AttemptsByOthers(c, s, t, step);
      PingsByOthers(c, s, t, step);
    }
  }

  lemma {:induction false} ConservedFrom(c: Config, s: State, m: Monitor, t: Tally, run: seq<Step>)
    requires MonitorInv(s, m) && Conserved(s, m, t) && StopInv(s) && Legal(c, s, run)
    ensures Conserved(Run(c, s, run), Observed(m, run), CountedIn(c, s, t, run))
    decreases |run|
  {
    if run != [] {
      StepMonitor(c, s, m, run[0]);
      StepStop(c, s, run[0]);
      StepConserved(c, s, m, t, run[0]);
      ConservedFrom(c, Next(c, s, run[0]), Observe(m, run[0]), Counted(s, t, run[0]), run[1..]);
    }
  }

  lemma ConservedFromStart(c: Config, s: State, m: Monitor, t: Tally, run: seq<Step>)
    requires s.io == StartRead(true) && s.timers == []
    requires s.pendingReads == s.ping.next == s.hist.giveUps == m.errors == 0
    requires t.firstTries == t.laterTries == t.connects == t.failedConnects == t.timersFired == 0
    requires t.pings == t.failedPings == t.pingsExpired == t.pingsDue == 0
    requires t.cut.readChains == t.cut.firstTries == t.cut.laterTries == t.cut.attempts == t.cut.pings == 0
    requires MonitorInv(s, m) && StopInv(s) && Legal(c, s, run)
    ensures AllConserved(Run(c, s, run), Observed(m, run), CountedIn(c, s, t, run))
  {
    ConservedFrom(c, s, m, t, run);
    ChainsFollow(Run(c, s, run), Observed(m, run), CountedIn(c, s, t, run));
  }

  /**
   In every run, whatever pings fail, and but for handlers that return because they find the stop flag set: each
   connection carries one read chain, which only a failed read ends; a reconnect chain starts with each failed read
   and each failed ping and with nothing else, goes on to a further attempt after each failed connect, and ends only
   in a connect or a give-up; each fired reconnect timer makes one attempt; the ping timer is armed once for each
   connection and again after each expiry unless that ping failed; and until the stop flag is set a ping is sent for
   each expiry that finds the client connected.
   */
  lemma Conservation(c: Config, run: seq<Step>)
    requires Legal(c, CONNECTED, run)
    ensures AllConserved(Run(c, CONNECTED, run), Observed(FIRST, run), CountedIn(c, CONNECTED, NOTHING, run))
  {
    ConservedFromStart(c, CONNECTED, FIRST, NOTHING, run);
  }

  // ---------------------------------------------------------------------------------------------
  // Backoff, whatever pings fail

  ghost predicate Scheduled(c: Config, attempt: nat, delay: int) {
    attempt <= Attempts(c) && delay == DelayAt(c.reconnectInterval, attempt)
  }

  ghost predicate TimerScheduled(c: Config, attempt: nat, delay: int) {
    Scheduled(c, attempt, delay) && attempt < Attempts(c)
  }

  ghost predicate HandlerScheduled(c: Config, io: Io) {
    match io
    case Backoff(a, d) => Scheduled(c, a, d)
    case ArmReconnect(a, d) => Scheduled(c, a, d)
    case ReconnectFired(a, d) => TimerScheduled(c, a, d)
    case Connect(a, d) => TimerScheduled(c, a, d)
    case _ => true
  }

  ghost predicate ScheduleInv(c: Config, s: State) {
    && HandlerScheduled(c, s.io)
    && forall i :: 0 <= i < |s.timers| ==> TimerScheduled(c, s.timers[i].attempt, s.timers[i].delay)
  }

  lemma NextScheduled(c: Config, attempt: nat, delay: int)
    ensures Scheduled(c, 0, c.reconnectInterval)
    ensures TimerScheduled(c, attempt, delay) ==> Scheduled(c, attempt + 1, NextDelay(delay))
    ensures Scheduled(c, attempt, delay) && attempt < c.maxAttempts ==> TimerScheduled(c, attempt, delay)
  {
  }

  lemma AdvanceSchedule(c: Config, s: State, ok: bool)
    requires ScheduleInv(c, s) && Enabled(s, Advance(ok))
    ensures ScheduleInv(c, Advanced(c, s, ok))
  {
    if s.io.Connect? || s.io.ArmReconnect? { NextScheduled(c, s.io.attempt, s.io.delay); }
    else { NextScheduled(c, 0, 0); }
  }

  lemma StepSchedule(c: Config, s: State, step: Step)
    requires ScheduleInv(c, s) && Enabled(s, step)
    ensures ScheduleInv(c, Next(c, s, step))
  {
    if step.Advance? { AdvanceSchedule(c, s, step.ok); }
  }

  lemma {:induction false} ScheduleFrom(c: Config, s: State, run: seq<Step>)
    requires ScheduleInv(c, s) && Legal(c, s, run)
    ensures ScheduleInv(c, Run(c, s, run))
    decreases |run|
  {
    if run != [] {
      StepSchedule(c, s, run[0]);
      ScheduleFrom(c, Next(c, s, run[0]), run[1..]);
    }
  }

  /** In every run, each timer of each chain has what the backoff rule says for an attempt within the limit. */
  lemma EveryTimerIsScheduled(c: Config, run: seq<Step>)
    requires Legal(c, CONNECTED, run)
    ensures forall timer :: timer in Run(c, CONNECTED, run).timers ==>
      timer.attempt < c.maxAttempts && timer.delay == DelayAt(c.reconnectInterval, timer.attempt)
  {
    ScheduleFrom(c, CONNECTED, run);
    var s := Run(c, CONNECTED, run);
    forall timer | timer in s.timers
      ensures timer.attempt < c.maxAttempts && timer.delay == DelayAt(c.reconnectInterval, timer.attempt)
    {
      var i :| 0 <= i < |s.timers| && s.timers[i] == timer;
      assert TimerScheduled(c, s.timers[i].attempt, s.timers[i].delay);
    }
  }

  // ---------------------------------------------------------------------------------------------
  // What cancelling the ping timer achieves

  /** The handler may arm the ping timer without another look at the stop flag. */
  predicate Arming(io: Io) {
    io == StartRead(true) || io.ArmPing? || io.SendPing? || io.Connect?
  }

  ghost predicate NonePending(s: State) {
    forall id :: id in s.ping.waits ==> !IsPending(s, id)
  }

  lemma StepNonePending(c: Config, s: State, step: Step)
    requires NonePending(s) && !Arming(s.io) && s.shouldStop && Enabled(s, step)
    ensures NonePending(Next(c, s, step)) && !Arming(Next(c, s, step).io) && Next(c, s, step).shouldStop
  {
    if step.Advance? { AdvancePing(c, s, step.ok); }
  }

  lemma {:induction false} NonePendingFrom(c: Config, s: State, run: seq<Step>)
    requires NonePending(s) && !Arming(s.io) && s.shouldStop && Legal(c, s, run)
    ensures NonePending(Run(c, s, run))
    decreases |run|
  {
    if run != [] {
      StepNonePending(c, s, run[0]);
      NonePendingFrom(c, Next(c, s, run[0]), run[1..]);
    }
  }

  lemma ReachArmPing(c: Config, start: State) returns (run: seq<Step>, s: State)
    requires Arming(start.io)
    ensures Legal(c, start, run) && Run(c, start, run) == s && s.io.ArmPing?
  {
    run, s := [], start;
    if s.io.Connect? { run, s := Continue(c, start, run, s, Advance(true)); }
    if !s.io.ArmPing? { run, s := Continue(c, start, run, s, Advance(true)); }
  }

  lemma ArmFrom(c: Config, start: State) returns (run: seq<Step>, s: State)
    requires Arming(start.io)
    ensures Legal(c, start, run) && Run(c, start, run) == s && !NonePending(s)
  {
    run, s := ReachArmPing(c, start);
    var id := s.ping.next;
    run, s := Continue(c, start, run, s, Advance(true));
    assert IsPending(s, id);
  }

  ghost predicate MayPing(c: Config, s: State) {
    exists later :: Legal(c, s, later) && !NonePending(Run(c, s, later))
  }

  /** After `disconnect` has cancelled the ping timer, one may be pending again iff a handler was arming it. */
  lemma CancelEndsPingsIffNotArming(c: Config, run: seq<Step>)
    requires Legal(c, CONNECTED, run) && Run(c, CONNECTED, run).main.Disconnected?
    ensures MayPing(c, Next(c, Run(c, CONNECTED, run), Disconnect)) <==> Arming(Run(c, CONNECTED, run).io)
  {
    StopFrom(c, CONNECTED, run);
    var s := Next(c, Run(c, CONNECTED, run), Disconnect);
    CancelKeepsPings(Run(c, CONNECTED, run));
    if Arming(s.io) {
      var later, end := ArmFrom(c, s);
      assert Legal(c, s, later) && Run(c, s, later) == end;
    } else {
      forall later | Legal(c, s, later) ensures NonePending(Run(c, s, later)) {
        NonePendingFrom(c, s, later);
      }
    }
  }
}
