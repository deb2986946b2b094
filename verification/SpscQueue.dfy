/** The ring buffer as one thread at a time sees it: array, wrapping counters, masked slots. */
module SpscQueues {
  import opened Wrappers
  import opened Counters

  /** The elements that the unbounded counters t, ..., h - 1 number, each in the slot of its number. */
  ghost function Ring<T>(buffer: seq<T>, t: nat, h: nat): (q: seq<T>)
    requires |buffer| > 0 && t <= h
    ensures |q| == h - t
    decreases h
  {
    if t == h then [] else Ring(buffer, t, h - 1) + [buffer[(h - 1) % |buffer|]]
  }

  /** Overwriting the slot of a counter outside t, ..., h - 1 leaves the ring alone. */
  lemma {:induction false} RingFrame<T>(buffer: seq<T>, t: nat, h: nat, k: nat, v: T)
    requires |buffer| > 0 && t <= h
    requires h <= k < t + |buffer| || (k < t && h <= k + |buffer|)
    ensures Ring(buffer[k % |buffer| := v], t, h) == Ring(buffer, t, h)
    decreases h
  {
    if t < h {
      var n := h - 1;
      if k < t { DistinctSlots(k, n, |buffer|); } else { DistinctSlots(n, k, |buffer|); }
      RingFrame(buffer, t, n, k, v);
    }
  }

  lemma {:induction false} RingHead<T>(buffer: seq<T>, t: nat, h: nat)
    requires |buffer| > 0 && t < h
    ensures Ring(buffer, t, h) == [buffer[t % |buffer|]] + Ring(buffer, t + 1, h)
    decreases h
  {
    if t + 1 < h { RingHead(buffer, t, h - 1); }
  }

  lemma RingPush<T>(buffer: seq<T>, t: nat, h: nat, v: T)
    requires t <= h < t + |buffer|
    ensures Ring(buffer[h % |buffer| := v], t, h + 1) == Ring(buffer, t, h) + [v]
  {
    RingFrame(buffer, t, h, h, v);
  }

  /** Popping leaves the rest of the ring, whatever the moved-from slot now holds. */
  lemma RingPop<T>(buffer: seq<T>, t: nat, h: nat, movedFrom: T)
    requires t < h <= t + |buffer|
    ensures Ring(buffer, t, h) == [buffer[t % |buffer|]] + Ring(buffer[t % |buffer| := movedFrom], t + 1, h)
  {
    RingHead(buffer, t, h);
    RingFrame(buffer, t + 1, h, t, movedFrom);
  }

  class SpscQueue<T(0)> {
    const capacity: Word
    const buffer: array<T>
    var head: Word
    var tail: Word

    // How many elements were ever pushed and popped: what head and tail would be if they did not wrap.
    ghost var pushed: nat
    ghost var taken: nat

    ghost predicate Valid()
      reads this
    {
      && ValidCapacity(capacity) && buffer.Length == capacity
      && taken <= pushed <= taken + capacity
      && head == Wrap(pushed) && tail == Wrap(taken)
    }

    ghost function Contents(): seq<T>
      requires Valid()
      reads this, buffer
    {
      Ring(buffer[..], taken, pushed)
    }

    constructor (capacity: Word)
      requires ValidCapacity(capacity)
      ensures Valid() && fresh(buffer) && this.capacity == capacity && Contents() == []
    {
      this.capacity := capacity;
      buffer := new T[capacity];
      head, tail := 0, 0;
      pushed, taken := 0, 0;
    }

    /** Both overloads: the value is stored, or the queue is full and nothing changes. */
    method TryPush(value: T) returns (ok: bool)
      requires Valid()
      modifies this`head, this`pushed, buffer
      ensures Valid()
      ensures ok <==> |old(Contents())| < capacity
      ensures Contents() == if ok then old(Contents()) + [value] else old(Contents())
      ensures !ok ==> head == old(head) && pushed == old(pushed) && buffer[..] == old(buffer[..])
    {
      CountIsExact(pushed, taken, capacity);
      if Sub(head, tail) >= capacity {
        return false;
      }
      SlotOfCounter(pushed, capacity);
      RingPush(buffer[..], taken, pushed, value);
      buffer[BitAnd(head, capacity - 1)] := value;
      assert buffer[..] == old(buffer[..])[pushed % capacity := value];
      WrapSuccessor(pushed);
      head, pushed := Wrap(head + 1), pushed + 1;
      return true;
    }

    /** The moved-from slot keeps an unspecified value. */
    method TryPop() returns (result: Option<T>)
      requires Valid()
      modifies this`tail, this`taken, buffer
      ensures Valid()
      ensures result.None? <==> old(Contents()) == []
      ensures result.None? ==> Contents() == []
      ensures result.Some? ==> old(Contents()) == [result.value] + Contents()
    {
      CountIsExact(pushed, taken, capacity);
      if tail == head {
        return None;
      }
      SlotOfCounter(taken, capacity);
      var slot := BitAnd(tail, capacity - 1);
      result := Some(buffer[slot]);
      buffer[slot] := *;
      RingPop(old(buffer[..]), taken, pushed, buffer[slot]);
      assert buffer[..] == old(buffer[..])[taken % capacity := buffer[slot]];
      WrapSuccessor(taken);
      tail, taken := Wrap(tail + 1), taken + 1;
    }

    method SizeApprox() returns (n: Word)
      requires Valid()
      ensures n == |Contents()|
    {
      CountIsExact(pushed, taken, capacity);
      n := Sub(head, tail);
    }

    /** The destructor's loop, which hands every remaining element over, oldest first. */
    method Drain() returns (drained: seq<T>)
      requires Valid()
      modifies this`tail, this`taken, buffer
      ensures Valid() && Contents() == []
      ensures drained == old(Contents())
    {
      drained := [];
      var more := true;
      ghost var all := Contents();
      while more
        invariant Valid()
        invariant all == drained + Contents()
        invariant !more ==> Contents() == []
        decreases |Contents()|, more
      {
        ghost var before := Contents();
        var next := TryPop();
        match next
        case Some(v) =>
          assert drained + before == drained + [v] + Contents();
          drained := drained + [v];
        case None =>
          more := false;
      }
    }
  }
}
