/** The stream object around queued dispatch, one call at a time: mode, subscription, queue and consumer loop. */
module MarketStreams {
  import opened Wrappers
  import opened Counters
  import opened SpscQueues

  datatype DispatchMode = Inline | Queued

  const QUEUE_CAPACITY: Word := 4096

  lemma QueueCapacityIsValid()
    ensures QUEUE_CAPACITY == 4096 && ValidCapacity(QUEUE_CAPACITY)
  {
    assert Pow2(4) == 16 && Pow2(8) == 256 && Pow2(12) == 4096;
    PowersAreValid(12);
  }

  class MarketStream<T(0)> {
    var mode: DispatchMode
    var subscribed: bool
    var running: bool
    var queue: SpscQueue?<T>

    // What the user's callback has been given, in order.
    var dispatched: seq<T>

    ghost function Footprint(): set<object>
      reads this
    {
      if queue == null then {} else {queue, queue.buffer}
    }

    ghost predicate Valid()
      reads this, Footprint()
    {
      && (queue != null <==> subscribed && mode == Queued)
      && (queue != null ==> queue.Valid() && queue.capacity == QUEUE_CAPACITY)
      && (running ==> queue != null)
    }

    /** Messages accepted but not yet dispatched. */
    ghost function Waiting(): seq<T>
      requires Valid()
      reads this, Footprint()
    {
      if queue == null then [] else queue.Contents()
    }

    constructor ()
      ensures Valid() && mode == Inline && !subscribed && !running && queue == null && dispatched == []
    {
      mode, subscribed, running, queue, dispatched := Inline, false, false, null, [];
    }

    /** Refused once subscribed. */
    method SetDispatchMode(newMode: DispatchMode) returns (ok: bool)
      requires Valid()
      modifies this`mode
      ensures Valid()
      ensures ok <==> !subscribed
      ensures mode == if ok then newMode else old(mode)
    {
      ok := !subscribed;
      if ok { mode := newMode; }
    }

    method Subscribe()
      requires Valid() && !subscribed
      modifies this`subscribed, this`running, this`queue
      ensures Valid() && subscribed && fresh(Footprint())
      ensures running <==> mode == Queued
      ensures Waiting() == []
    {
      subscribed := true;
      if mode == Queued {
        QueueCapacityIsValid();
        queue := new SpscQueue<T>(QUEUE_CAPACITY);
        running := true;
      }
    }

    /** The message callback: inline it dispatches at once, queued it enqueues or drops. */
    method OnMessage(msg: T) returns (kept: bool)
      requires Valid() && subscribed
      modifies this`dispatched, Footprint()
      ensures Valid()
      ensures kept <==> mode == Inline || |old(Waiting())| < QUEUE_CAPACITY
      ensures dispatched == if mode == Inline then old(dispatched) + [msg] else old(dispatched)
      ensures Waiting() == if mode == Queued && kept then old(Waiting()) + [msg] else old(Waiting())
    {
      if mode == Queued {
        kept := queue.TryPush(msg);
      } else {
        dispatched := dispatched + [msg];
        kept := true;
      }
    }

    /** One round of the consumer's polling loop. */
    method ConsumerRound()
      requires Valid() && running
      modifies this`dispatched, Footprint()
      ensures Valid()
      ensures dispatched + Waiting() == old(dispatched + Waiting())
      ensures |dispatched| == |old(dispatched)| + if old(Waiting()) == [] then 0 else 1
    {
      var next := queue.TryPop();
      match next
      case Some(msg) =>
        assert old(dispatched + Waiting()) == old(dispatched) + [msg] + Waiting();
        dispatched := dispatched + [msg];
      case None =>
    }

    /** Clears `running`, lets the consumer drain, and does nothing when called again. */
    method StopConsumer()
      requires Valid()
      modifies this`running, this`dispatched, Footprint()
      ensures Valid() && !running
      ensures old(running) ==> dispatched == old(dispatched + Waiting()) && Waiting() == []
      ensures !old(running) ==> dispatched == old(dispatched) && Waiting() == old(Waiting())
    {
      if running {
        running := false;
        var rest := queue.Drain();
        dispatched := dispatched + rest;
      }
    }
  }
}
