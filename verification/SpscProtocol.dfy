/**
 The ring buffer under one producer thread and one consumer thread, at the grain of single loads,
 slot accesses and stores.

 The length of `accepted` is the unbounded head counter and the length of `popped` the unbounded tail
 counter; `head` and `tail` are the words the code keeps.  An acquire load of the other side's counter
 may be stale: it yields any value that counter has had since the loading thread last observed it.
 */
module SpscProtocol {
  import opened Wrappers
  import opened Counters

  datatype Producer<T> =
    | PushReady
    | PushHeadLoaded(value: T, head: Word)
    | PushAdmitted(value: T, head: Word)
    | PushSlotWritten(value: T, head: Word)

  datatype Consumer<T> =
    | PopReady
    | PopTailLoaded(tail: Word)
    | PopAdmitted(tail: Word)
    | PopSlotRead(tail: Word, value: T)

  /** The result of a call, entered in the log by the step that decides it. */
  datatype Event<T> = Pushed(value: T) | PushRejected(value: T) | Popped(value: T) | PopEmpty

  datatype State<T> = State(
    slots: seq<Option<T>>,
    head: Word,
    tail: Word,
    producer: Producer<T>,
    consumer: Consumer<T>,
    accepted: seq<T>,
    popped: seq<T>,
    seenTail: nat,
    seenHead: nat,
    log: seq<Event<T>>)

  datatype Step<T> =
    | LoadOwnHead(value: T)
    | LoadTail(observed: nat)
    | WriteSlot
    | StoreHead
    | LoadOwnTail
    | LoadHead(observed: nat)
    | ReadSlot
    | StoreTail

  function Init<T>(c: Word): State<T> {
    State(seq(c, _ => None), 0, 0, PushReady, PopReady, [], [], 0, 0, [])
  }

  predicate Enabled<T>(s: State<T>, step: Step<T>) {
    match step
    case LoadOwnHead(_) => s.producer.PushReady?
    case LoadTail(observed) => s.producer.PushHeadLoaded? && s.seenTail <= observed <= |s.popped|
    case WriteSlot => s.producer.PushAdmitted?
    case StoreHead => s.producer.PushSlotWritten?
    case LoadOwnTail => s.consumer.PopReady?
    case LoadHead(observed) => s.consumer.PopTailLoaded? && s.seenHead <= observed <= |s.accepted|
    case ReadSlot => s.consumer.PopAdmitted?
    case StoreTail => s.consumer.PopSlotRead?
  }

  /** What a slot access does to the buffer; an index outside it would be undefined behaviour. */
  function Put<T>(slots: seq<Option<T>>, i: nat, v: Option<T>): seq<Option<T>> {
    if i < |slots| then slots[i := v] else slots
  }

  function Take<T>(slots: seq<Option<T>>, i: nat): Option<T> {
    if i < |slots| then slots[i] else None
  }

  function Next<T>(c: Word, s: State<T>, step: Step<T>): State<T>
    requires c > 0 && Enabled(s, step)
  {
    match step
    case LoadOwnHead(value) =>
      s.(producer := PushHeadLoaded(value, s.head))
    case LoadTail(observed) =>
      var p := s.producer;
      if Sub(p.head, Wrap(observed)) >= c then
        s.(producer := PushReady, seenTail := observed, log := s.log + [PushRejected(p.value)])
      else
        s.(producer := PushAdmitted(p.value, p.head), seenTail := observed)
    case WriteSlot =>
      var p := s.producer;
      s.(producer := PushSlotWritten(p.value, p.head), slots := Put(s.slots, BitAnd(p.head, c - 1), Some(p.value)))
    case StoreHead =>
      var p := s.producer;
      s.(producer := PushReady, head := Wrap(p.head + 1), accepted := s.accepted + [p.value],
         log := s.log + [Pushed(p.value)])
    case LoadOwnTail =>
      s.(consumer := PopTailLoaded(s.tail))
    case LoadHead(observed) =>
      if s.consumer.tail == Wrap(observed) then
        s.(consumer := PopReady, seenHead := observed, log := s.log + [PopEmpty])
      else
        s.(consumer := PopAdmitted(s.consumer.tail), seenHead := observed)
    case ReadSlot =>
      var i := BitAnd(s.consumer.tail, c - 1);
      match Take(s.slots, i) {
        case Some(v) => s.(consumer := PopSlotRead(s.consumer.tail, v), slots := Put(s.slots, i, None))
        // An empty slot would hand out an unspecified value; `ReadIsSafe` excludes it.
        case None => s.(consumer := PopReady)
      }
    case StoreTail =>
      var t := s.consumer;
      s.(consumer := PopReady, tail := Wrap(t.tail + 1), popped := s.popped + [t.value],
         log := s.log + [Popped(t.value)])
  }

  // ---------------------------------------------------------------------------------------------
  // Runs

  predicate Legal<T>(c: Word, s: State<T>, steps: seq<Step<T>>)
    requires c > 0
    decreases |steps|
  {
    steps == [] || (Enabled(s, steps[0]) && Legal(c, Next(c, s, steps[0]), steps[1..]))
  }

  function Run<T>(c: Word, s: State<T>, steps: seq<Step<T>>): State<T>
    requires c > 0 && Legal(c, s, steps)
    decreases |steps|
  {
    if steps == [] then s else Run(c, Next(c, s, steps[0]), steps[1..])
  }

  // ---------------------------------------------------------------------------------------------
  // The invariant

  /** Slot accesses completed so far: the n-th write and the n-th read both use slot n mod capacity. */
  function Writes<T>(s: State<T>): nat {
    |s.accepted| + if s.producer.PushSlotWritten? then 1 else 0
  }

  function Reads<T>(s: State<T>): nat {
    |s.popped| + if s.consumer.PopSlotRead? then 1 else 0
  }

  ghost predicate CountersInv<T>(c: Word, s: State<T>) {
    var h, t := |s.accepted|, |s.popped|;
    && ValidCapacity(c) && |s.slots| == c
    && s.head == Wrap(h) && s.tail == Wrap(t)
    && s.seenTail <= t <= s.seenHead <= h <= s.seenTail + c
    && (!s.producer.PushReady? ==> s.producer.head == Wrap(h))
    && (s.producer.PushAdmitted? || s.producer.PushSlotWritten? ==> h < s.seenTail + c)
    && (!s.consumer.PopReady? ==> s.consumer.tail == Wrap(t))
    && (s.consumer.PopAdmitted? || s.consumer.PopSlotRead? ==> t < s.seenHead)
  }

  /** The value that the n-th slot write stored. */
  function Written<T>(s: State<T>, n: nat): T
    requires n < Writes(s)
  {
    if n < |s.accepted| then s.accepted[n] else s.producer.value
  }

  ghost predicate SlotsInv<T>(c: Word, s: State<T>)
    requires c > 0 && |s.slots| == c
  {
    && (forall n {:trigger n % c} :: Reads(s) <= n < Writes(s) ==> s.slots[n % c] == Some(Written(s, n)))
    && (forall n {:trigger n % c} :: Writes(s) <= n < Reads(s) + c ==> s.slots[n % c] == None)
  }

  ghost predicate HistoryInv<T>(s: State<T>) {
    && s.popped <= s.accepted
    && (s.consumer.PopSlotRead? ==> |s.popped| < |s.accepted| && s.consumer.value == s.accepted[|s.popped|])
  }

  ghost predicate Inv<T>(c: Word, s: State<T>) {
    CountersInv(c, s) && SlotsInv(c, s) && HistoryInv(s)
  }

  lemma InitInv<T>(c: Word)
    requires ValidCapacity(c)
    ensures Inv(c, Init<T>(c))
  {
  }

  lemma LoadTailCounters<T>(c: Word, s: State<T>, observed: nat)
    requires c > 0 && CountersInv(c, s) && Enabled(s, LoadTail(observed))
    ensures CountersInv(c, Next(c, s, LoadTail(observed)))
  {
    CountIsExact(|s.accepted|, observed, c);
  }

  lemma LoadHeadCounters<T>(c: Word, s: State<T>, observed: nat)
    requires c > 0 && CountersInv(c, s) && Enabled(s, LoadHead(observed))
    ensures CountersInv(c, Next(c, s, LoadHead(observed)))
  {
    CountIsExact(observed, |s.popped|, c);
  }

  lemma CountersStep<T>(c: Word, s: State<T>, step: Step<T>)
    requires c > 0 && Inv(c, s) && Enabled(s, step)
    requires step.ReadSlot? ==> Take(s.slots, BitAnd(s.consumer.tail, c - 1)).Some?
    ensures CountersInv(c, Next(c, s, step))
  {
    match step
    case LoadTail(observed) => LoadTailCounters(c, s, observed);
    case LoadHead(observed) => LoadHeadCounters(c, s, observed);
    case StoreHead => WrapSuccessor(|s.accepted|);
    case StoreTail => WrapSuccessor(|s.popped|);
    case _ =>
  }

  /** The slot an admitted pop reads holds the oldest unread value, and nobody else uses that slot. */
  lemma ReadIsSafe<T>(c: Word, s: State<T>)
    requires c > 0 && Inv(c, s) && s.consumer.PopAdmitted?
    ensures BitAnd(s.consumer.tail, c - 1) == |s.popped| % c
    ensures Take(s.slots, BitAnd(s.consumer.tail, c - 1)) == Some(s.accepted[|s.popped|])
  {
    SlotOfCounter(|s.popped|, c);
    assert s.slots[|s.popped| % c] == Some(Written(s, |s.popped|));
  }

  lemma WriteIsSafe<T>(c: Word, s: State<T>)
    requires c > 0 && Inv(c, s) && s.producer.PushAdmitted?
    ensures BitAnd(s.producer.head, c - 1) == |s.accepted| % c
    ensures s.slots[|s.accepted| % c] == None
  {
    SlotOfCounter(|s.accepted|, c);
  }

  lemma WriteSlots<T>(c: Word, s: State<T>)
    requires c > 0 && Inv(c, s) && s.producer.PushAdmitted?
    ensures |Next(c, s, WriteSlot).slots| == c && SlotsInv(c, Next(c, s, WriteSlot))
  {
    WriteIsSafe(c, s);
    var w := |s.accepted|;
    forall n {:trigger n % c} | Reads(s) <= n < Reads(s) + c && n != w ensures n % c != w % c {
      if n < w { DistinctSlots(n, w, c); } else { DistinctSlots(w, n, c); }
    }
  }

  lemma ReadSlots<T>(c: Word, s: State<T>)
    requires c > 0 && Inv(c, s) && s.consumer.PopAdmitted?
    ensures |Next(c, s, ReadSlot).slots| == c && SlotsInv(c, Next(c, s, ReadSlot))
  {
    ReadIsSafe(c, s);
    var r := |s.popped|;
    forall n {:trigger n % c} | r < n < r + c ensures n % c != r % c {
      DistinctSlots(r, n, c);
    }
    assert (r + c) % c == r % c by { ModuloOfShift(1, r, c); }
  }

  lemma SlotsStep<T>(c: Word, s: State<T>, step: Step<T>)
    requires c > 0 && Inv(c, s) && Enabled(s, step)
    ensures |Next(c, s, step).slots| == c && SlotsInv(c, Next(c, s, step))
  {
    match step
    case WriteSlot => WriteSlots(c, s);
    case ReadSlot => ReadSlots(c, s);
    case _ =>
  }

  lemma StepInv<T>(c: Word, s: State<T>, step: Step<T>)
    requires c > 0 && Inv(c, s) && Enabled(s, step)
    ensures Inv(c, Next(c, s, step))
  {
    if step.ReadSlot? { ReadIsSafe(c, s); }
    CountersStep(c, s, step);
    SlotsStep(c, s, step);
  }

  lemma {:induction false} RunInv<T>(c: Word, s: State<T>, steps: seq<Step<T>>)
    requires c > 0 && Inv(c, s) && Legal(c, s, steps)
    ensures Inv(c, Run(c, s, steps))
    decreases |steps|
  {
    if steps != [] {
      StepInv(c, s, steps[0]);
      RunInv(c, Next(c, s, steps[0]), steps[1..]);
    }
  }

  // ---------------------------------------------------------------------------------------------
  // Linearizability: the log of results is a run of an atomic bounded queue

  ghost predicate Allows<T>(c: Word, q: seq<T>, e: Event<T>, strict: bool) {
    match e
    case Pushed(_) => |q| < c
    case Popped(v) => q != [] && q[0] == v
    case PushRejected(_) => strict ==> |q| == c
    case PopEmpty => strict ==> q == []
  }

  ghost function Apply<T>(q: seq<T>, e: Event<T>): seq<T>
    requires e.Popped? ==> q != []
  {
    match e
    case Pushed(v) => q + [v]
    case Popped(_) => q[1..]
    case _ => q
  }

  /** The atomic queue after these results, or nothing if it could not have given them. */
  ghost function Replay<T>(c: Word, log: seq<Event<T>>, strict: bool): Option<seq<T>> {
    if log == [] then Some([])
    else
      var e := log[|log| - 1];
      match Replay(c, log[..|log| - 1], strict)
      case None => None
      case Some(q) => if Allows(c, q, e, strict) then Some(Apply(q, e)) else None
  }

  function PushedValues<T>(log: seq<Event<T>>): seq<T> {
    if log == [] then []
    else
      var e := log[|log| - 1];
      PushedValues(log[..|log| - 1]) + if e.Pushed? then [e.value] else []
  }

  function PoppedValues<T>(log: seq<Event<T>>): seq<T> {
    if log == [] then []
    else
      var e := log[|log| - 1];
      PoppedValues(log[..|log| - 1]) + if e.Popped? then [e.value] else []
  }

  ghost predicate LogInv<T>(c: Word, s: State<T>, strict: bool)
    requires HistoryInv(s)
  {
    && s.accepted == PushedValues(s.log)
    && s.popped == PoppedValues(s.log)
    && Replay(c, s.log, strict) == Some(s.accepted[|s.popped|..])
  }

  /** The step reads the other side's newest counter value. */
  ghost predicate Fresh<T>(s: State<T>, step: Step<T>) {
    && (step.LoadTail? ==> step.observed == |s.popped|)
    && (step.LoadHead? ==> step.observed == |s.accepted|)
  }

  ghost predicate AllFresh<T>(c: Word, s: State<T>, steps: seq<Step<T>>)
    requires c > 0 && Legal(c, s, steps)
    decreases |steps|
  {
    steps == [] || (Fresh(s, steps[0]) && AllFresh(c, Next(c, s, steps[0]), steps[1..]))
  }

  /** A push is turned away iff the observed tail leaves no room, which is a full queue iff the load was fresh. */
  lemma RejectionIsGenuineIffFresh<T>(c: Word, s: State<T>, observed: nat)
    requires c > 0 && Inv(c, s) && s.producer.PushHeadLoaded? && Enabled(s, LoadTail(observed))
    ensures var s' := Next(c, s, LoadTail(observed));
      && (s'.producer.PushReady? <==> |s.accepted| == observed + c)
      && (s'.producer.PushReady? ==> (|s.accepted| - |s.popped| == c <==> observed == |s.popped|))
  {
    CountIsExact(|s.accepted|, observed, c);
  }

  lemma EmptyIsGenuineIffFresh<T>(c: Word, s: State<T>, observed: nat)
    requires c > 0 && Inv(c, s) && s.consumer.PopTailLoaded? && Enabled(s, LoadHead(observed))
    ensures var s' := Next(c, s, LoadHead(observed));
      && (s'.consumer.PopReady? <==> |s.popped| == observed)
      && (s'.consumer.PopReady? ==> (s.popped == s.accepted <==> observed == |s.accepted|))
  {
    CountIsExact(observed, |s.popped|, c);
  }

  lemma LogAppend<T>(c: Word, log: seq<Event<T>>, e: Event<T>, strict: bool)
    requires Replay(c, log, strict).Some? && Allows(c, Replay(c, log, strict).value, e, strict)
    ensures Replay(c, log + [e], strict) == Some(Apply(Replay(c, log, strict).value, e))
    ensures PushedValues(log + [e]) == PushedValues(log) + if e.Pushed? then [e.value] else []
    ensures PoppedValues(log + [e]) == PoppedValues(log) + if e.Popped? then [e.value] else []
  {
    assert (log + [e])[..|log + [e]| - 1] == log;
  }

  lemma StoreHeadLog<T>(c: Word, s: State<T>, strict: bool)
    requires c > 0 && Inv(c, s) && s.producer.PushSlotWritten? && LogInv(c, s, strict)
    ensures HistoryInv(Next(c, s, StoreHead)) && LogInv(c, Next(c, s, StoreHead), strict)
  {
    var v, t := s.producer.value, |s.popped|;
    LogAppend(c, s.log, Pushed(v), strict);
    assert (s.accepted + [v])[t..] == s.accepted[t..] + [v];
  }

  lemma StoreTailLog<T>(c: Word, s: State<T>, strict: bool)
    requires c > 0 && Inv(c, s) && s.consumer.PopSlotRead? && LogInv(c, s, strict)
    ensures HistoryInv(Next(c, s, StoreTail)) && LogInv(c, Next(c, s, StoreTail), strict)
  {
    var t := |s.popped|;
    assert s.accepted[t..][0] == s.consumer.value;
    LogAppend(c, s.log, Popped(s.consumer.value), strict);
    assert s.accepted[t..][1..] == s.accepted[t + 1..];
  }

  lemma StepLog<T>(c: Word, s: State<T>, step: Step<T>, strict: bool)
    requires c > 0 && Inv(c, s) && Enabled(s, step) && LogInv(c, s, strict)
    requires strict ==> Fresh(s, step)
    ensures Inv(c, Next(c, s, step)) && LogInv(c, Next(c, s, step), strict)
  {
    var s' := Next(c, s, step);
    StepInv(c, s, step);
    match step
    case LoadTail(observed) =>
      RejectionIsGenuineIffFresh(c, s, observed);
      if s'.producer.PushReady? { LogAppend(c, s.log, PushRejected(s.producer.value), strict); }
    case LoadHead(observed) =>
      EmptyIsGenuineIffFresh(c, s, observed);
      if s'.consumer.PopReady? { LogAppend(c, s.log, PopEmpty, strict); }
    case StoreHead => StoreHeadLog(c, s, strict);
    case StoreTail => StoreTailLog(c, s, strict);
    case ReadSlot => ReadIsSafe(c, s);
    case _ =>
  }

  lemma {:induction false} RunLog<T>(c: Word, s: State<T>, steps: seq<Step<T>>, strict: bool)
    requires c > 0 && Inv(c, s) && Legal(c, s, steps) && LogInv(c, s, strict)
    requires strict ==> AllFresh(c, s, steps)
    ensures Inv(c, Run(c, s, steps)) && LogInv(c, Run(c, s, steps), strict)
    decreases |steps|
  {
    if steps != [] {
      StepLog(c, s, steps[0], strict);
      RunLog(c, Next(c, s, steps[0]), steps[1..], strict);
    }
  }

  /**
   Every interleaving, stale loads included, behaves as an atomic bounded queue up to spurious "full"
   and "empty" answers; without stale loads there are no spurious answers either.
   */
  lemma Linearizable<T>(c: Word, steps: seq<Step<T>>)
    requires ValidCapacity(c) && Legal(c, Init<T>(c), steps)
    ensures var s := Run(c, Init<T>(c), steps);
      && s.accepted == PushedValues(s.log) && s.popped == PoppedValues(s.log)
      && s.popped <= s.accepted && |s.accepted| - |s.popped| <= c
      && Sub(s.head, s.tail) == |s.accepted| - |s.popped|
      && Replay(c, s.log, false) == Some(s.accepted[|s.popped|..])
      && (AllFresh(c, Init<T>(c), steps) ==> Replay(c, s.log, true) == Some(s.accepted[|s.popped|..]))
  {
    var init, s := Init<T>(c), Run(c, Init<T>(c), steps);
    InitInv<T>(c);
    RunLog(c, init, steps, false);
    if AllFresh(c, init, steps) { RunLog(c, init, steps, true); }
    CountIsExact(|s.accepted|, |s.popped|, c);
  }

  lemma Precede<T>(c: Word, s: State<T>, step: Step<T>, rest: seq<Step<T>>)
    requires c > 0 && Enabled(s, step) && Legal(c, Next(c, s, step), rest)
    ensures Legal(c, s, [step] + rest) && Run(c, s, [step] + rest) == Run(c, Next(c, s, step), rest)
  {
    assert ([step] + rest)[1..] == rest;
  }

  /** One value goes through a queue of capacity one; `rest` continues from there. */
  lemma PassOne<T>(v: T, t: State<T>, rest: seq<Step<T>>) returns (steps: seq<Step<T>>)
    requires t == State([None], 1, 1, PushReady, PopReady, [v], [v], 0, 1, [Pushed(v), Popped(v)])
    requires Legal(1, t, rest)
    ensures Legal(1, Init<T>(1), steps) && Run(1, Init<T>(1), steps) == Run(1, t, rest)
  {
    var half := State([Some(v)], 1, 0, PushReady, PopReady, [v], [], 0, 0, [Pushed(v)]);
    steps := PopOne(v, half, t, rest);
    steps := PushOne(v, half, steps);
  }

  lemma PushOne<T>(v: T, t: State<T>, rest: seq<Step<T>>) returns (steps: seq<Step<T>>)
    requires t == State([Some(v)], 1, 0, PushReady, PopReady, [v], [], 0, 0, [Pushed(v)])
    requires Legal(1, t, rest)
    ensures Legal(1, Init<T>(1), steps) && Run(1, Init<T>(1), steps) == Run(1, t, rest)
  {
    var s0 := Init<T>(1);
    var s1 := Next(1, s0, LoadOwnHead(v));
    var s2 := Next(1, s1, LoadTail(0));
    var s3 := Next(1, s2, WriteSlot);
    assert Next(1, s3, StoreHead) == t;
    Precede(1, s3, StoreHead, rest);
    Precede(1, s2, WriteSlot, [StoreHead] + rest);
    steps := [WriteSlot] + ([StoreHead] + rest);
    Precede(1, s1, LoadTail(0), steps);
    Precede(1, s0, LoadOwnHead(v), [LoadTail(0)] + steps);
    steps := [LoadOwnHead(v)] + ([LoadTail(0)] + steps);
  }

  lemma PopOne<T>(v: T, s0: State<T>, t: State<T>, rest: seq<Step<T>>) returns (steps: seq<Step<T>>)
    requires s0 == State([Some(v)], 1, 0, PushReady, PopReady, [v], [], 0, 0, [Pushed(v)])
    requires t == State([None], 1, 1, PushReady, PopReady, [v], [v], 0, 1, [Pushed(v), Popped(v)])
    requires Legal(1, t, rest)
    ensures Legal(1, s0, steps) && Run(1, s0, steps) == Run(1, t, rest)
  {
    var s1 := Next(1, s0, LoadOwnTail);
    var s2 := Next(1, s1, LoadHead(1));
    var s3 := Next(1, s2, ReadSlot);
    assert Next(1, s3, StoreTail) == t;
    Precede(1, s3, StoreTail, rest);
    Precede(1, s2, ReadSlot, [StoreTail] + rest);
    steps := [ReadSlot] + ([StoreTail] + rest);
    Precede(1, s1, LoadHead(1), steps);
    Precede(1, s0, LoadOwnTail, [LoadHead(1)] + steps);
    steps := [LoadOwnTail] + ([LoadHead(1)] + steps);
  }

  /** A stale tail load turns a push away although the queue is empty. */
  lemma SpuriousRejectionExists<T>(v: T, w: T) returns (steps: seq<Step<T>>)
    ensures ValidCapacity(1) && Legal(1, Init<T>(1), steps)
    ensures Run(1, Init<T>(1), steps).log == [Pushed(v), Popped(v), PushRejected(w)]
  {
    var t := State([None], 1, 1, PushReady, PopReady, [v], [v], 0, 1, [Pushed(v), Popped(v)]);
    var u := Next(1, t, LoadOwnHead(w));
    Precede(1, u, LoadTail(0), []);
    Precede(1, t, LoadOwnHead(w), [LoadTail(0)] + []);
    steps := PassOne(v, t, [LoadOwnHead(w)] + ([LoadTail(0)] + []));
  }

  // ---------------------------------------------------------------------------------------------
  // Slot accesses never race

  /**
   Before the producer writes a slot, every read of that slot so far was published by the tail value it
   acquired; before the consumer reads a slot, every write of that slot so far was published by the head
   value it acquired; and the two never target one slot at once.
   */
  lemma SlotAccessesAreOrdered<T>(c: Word, s: State<T>)
    requires c > 0 && Inv(c, s)
    ensures s.producer.PushAdmitted? ==>
      && s.slots[BitAnd(s.producer.head, c - 1)] == None
      && forall n {:trigger n % c} :: 0 <= n < Reads(s) && n % c == BitAnd(s.producer.head, c - 1) ==> n < s.seenTail
    ensures s.consumer.PopAdmitted? ==>
      && s.slots[BitAnd(s.consumer.tail, c - 1)] == Some(s.accepted[|s.popped|])
      && forall n {:trigger n % c} :: 0 <= n < Writes(s) && n % c == BitAnd(s.consumer.tail, c - 1) ==> n < s.seenHead
    ensures s.producer.PushAdmitted? && s.consumer.PopAdmitted? ==>
      BitAnd(s.producer.head, c - 1) != BitAnd(s.consumer.tail, c - 1)
  {
    var h, t := |s.accepted|, |s.popped|;
    if s.producer.PushAdmitted? {
      WriteIsSafe(c, s);
      forall n {:trigger n % c} | s.seenTail <= n < Reads(s) ensures n % c != h % c {
        DistinctSlots(n, h, c);
      }
    }
    if s.consumer.PopAdmitted? {
      ReadIsSafe(c, s);
      forall n {:trigger n % c} | s.seenHead <= n < Writes(s) ensures n % c != t % c {
        DistinctSlots(t, n, c);
      }
    }
    if s.producer.PushAdmitted? && s.consumer.PopAdmitted? { DistinctSlots(t, h, c); }
  }

  // ---------------------------------------------------------------------------------------------
  // size_approx: a head load, any number of steps of the two threads, then a tail load

  lemma StepMonotone<T>(c: Word, s: State<T>, step: Step<T>)
    requires c > 0 && Enabled(s, step)
    ensures var s' := Next(c, s, step);
      && s.accepted <= s'.accepted && s.popped <= s'.popped
      && (!step.StoreHead? ==> s'.accepted == s.accepted)
      && (!step.StoreTail? ==> s'.popped == s.popped)
  {
  }

  lemma {:induction false} RunMonotone<T>(c: Word, s: State<T>, steps: seq<Step<T>>)
    requires c > 0 && Inv(c, s) && Legal(c, s, steps)
    ensures var s' := Run(c, s, steps);
      && s.accepted <= s'.accepted && s.popped <= s'.popped
      && (StoreHead !in steps ==> s'.accepted == s.accepted)
      && (StoreTail !in steps ==> s'.popped == s.popped)
    decreases |steps|
  {
    if steps != [] {
      StepInv(c, s, steps[0]);
      StepMonotone(c, s, steps[0]);
      RunMonotone(c, Next(c, s, steps[0]), steps[1..]);
    }
  }

  /** The word difference of any two counter values is their difference modulo 2^64. */
  lemma SubIsModulo(h: nat, t: nat)
    ensures Sub(Wrap(h), Wrap(t)) == (h - t) % WORD
  {
    var k := (h - t) / WORD - h / WORD + t / WORD;
    assert Wrap(h) - Wrap(t) == k * WORD + (h - t) % WORD;
    ModuloUnique(Wrap(h) - Wrap(t), WORD, k, (h - t) % WORD);
  }

  /**
   `size_approx` loads head value h in state s and tail value t after any steps; either load may be stale.  The
   answer is h - t modulo 2^64.  Less than a word apart, it is within the capacity iff h - t is.  With fresh loads
   that fails only for a tail that has passed the loaded head.  The producer, whose own head is exact, never gets
   less than the queue holds, and the consumer, whose own tail is exact, never more; both stay within the capacity.
   */
  lemma SizeApproxMeaning<T>(c: Word, s: State<T>, steps: seq<Step<T>>, h: nat, t: nat)
    requires c > 0 && Inv(c, s) && Legal(c, s, steps) && h <= |s.accepted| && t <= |Run(c, s, steps).popped|
    ensures var s', size := Run(c, s, steps), Sub(Wrap(h), Wrap(t));
      && size == (h - t) % WORD
      && (c - WORD < h - t < WORD ==> (size <= c <==> 0 <= h - t <= c) && (size <= c ==> size == h - t))
      && (h == |s.accepted| && t == |s'.popped| < h + WORD - c ==> (size <= c <==> t <= h))
      && (h == |s.accepted| && s.seenTail <= t && StoreHead !in steps ==> |s'.accepted| - |s'.popped| <= size <= c)
      && (s.seenHead <= h && t == |s.popped| && StoreTail !in steps ==> size <= |s.accepted| - |s'.popped| <= c)
      && (h == |s.accepted| && t == |s'.popped| && StoreHead !in steps ==> size == |s'.accepted| - |s'.popped|)
      && (h == |s.accepted| && t == |s'.popped| && StoreTail !in steps ==> size == |s.accepted| - |s.popped|)
  {
    RunMonotone(c, s, steps);
    RunInv(c, s, steps);
    SubIsModulo(h, t);
    ModuloNear(h - t);
  }

  lemma ModuloNear(d: int)
    ensures 0 <= d < WORD ==> d % WORD == d
    ensures 0 < -d < WORD ==> d % WORD == d + WORD
  {
  }

  /** A third thread reads the head, one value goes through the queue, and the answer is 2^64 - 1. */
  lemma SizeApproxExceedsCapacity<T>(v: T) returns (steps: seq<Step<T>>)
    ensures ValidCapacity(1) && Legal(1, Init<T>(1), steps)
    ensures Sub(Init<T>(1).head, Run(1, Init<T>(1), steps).tail) == WORD - 1
  {
    var t := State([None], 1, 1, PushReady, PopReady, [v], [v], 0, 1, [Pushed(v), Popped(v)]);
    steps := PassOne(v, t, []);
  }
}
