/** The pool of HTTP connections: a vector of slots on the heap, scanned to acquire and searched to release. */
module ConnectionPools {
  import opened Wrappers

  datatype Conn = Conn(inUse: bool, connected: bool)

  /** The vector, as slot identities in order, and what each slot's heap object holds. */
  datatype Pool = Pool(order: seq<nat>, conns: map<nat, Conn>)

  ghost predicate WellFormed(p: Pool) {
    && (forall i, j :: 0 <= i < j < |p.order| ==> p.order[i] != p.order[j])
    && (forall id :: id in p.conns <==> id in p.order)
  }

  predicate IsIdle(p: Pool, id: nat, connected: bool) {
    id in p.conns && !p.conns[id].inUse && p.conns[id].connected == connected
  }

  /** The position of the first idle slot in the given connection state. */
  function FirstIdle(p: Pool, connected: bool, from: nat): (r: Option<nat>)
    requires from <= |p.order|
    ensures r.Some? ==> from <= r.value < |p.order| && IsIdle(p, p.order[r.value], connected)
    ensures r.Some? ==> forall i :: from <= i < r.value ==> !IsIdle(p, p.order[i], connected)
    ensures r.None? ==> forall i :: from <= i < |p.order| ==> !IsIdle(p, p.order[i], connected)
    decreases |p.order| - from
  {
    if from == |p.order| then None
    else if IsIdle(p, p.order[from], connected) then Some(from)
    else FirstIdle(p, connected, from + 1)
  }

  function MarkInUse(p: Pool, id: nat): Pool {
    if id in p.conns then p.(conns := p.conns[id := p.conns[id].(inUse := true)]) else p
  }

  function MarkConnected(p: Pool, id: nat): Pool {
    if id in p.conns then p.(conns := p.conns[id := p.conns[id].(connected := true)]) else p
  }

  function Append(p: Pool, id: nat): Pool {
    Pool(p.order + [id], p.conns[id := Conn(true, false)])
  }

  function EraseAt(p: Pool, i: nat): Pool
    requires i < |p.order|
  {
    Pool(p.order[..i] + p.order[i + 1..], p.conns - {p.order[i]})
  }

  /** `pop_back`, which removes whatever slot is last. */
  function PopBack(p: Pool): Pool {
    if p.order == [] then p else EraseAt(p, |p.order| - 1)
  }

  function Position(order: seq<nat>, id: nat, from: nat): (r: Option<nat>)
    requires from <= |order|
    ensures r.Some? ==> from <= r.value < |order| && order[r.value] == id
    ensures r.None? ==> id !in order[from..]
    decreases |order| - from
  {
    if from == |order| then None
    else if order[from] == id then Some(from)
    else Position(order, id, from + 1)
  }

  lemma PositionIsFirst(order: seq<nat>, id: nat, i: nat)
    requires i <= |order| && id !in order[..i] && (i < |order| ==> order[i] == id)
    ensures Position(order, id, 0) == if i < |order| then Some(i) else None
  {
    PositionSkips(order, id, 0, i);
  }

  lemma {:induction false} PositionSkips(order: seq<nat>, id: nat, from: nat, to: nat)
    requires from <= to <= |order| && id !in order[..to]
    ensures Position(order, id, from) == Position(order, id, to)
    decreases |order| - from
  {
    if from < to {
      assert order[..to][from] == order[from];
      PositionSkips(order, id, from + 1, to);
    }
  }

  function Release(p: Pool, size: nat, id: nat, keep: bool): Pool {
    match Position(p.order, id, 0)
    case None => p
    case Some(i) =>
      if !keep || |p.order| > size then EraseAt(p, i)
      else if id in p.conns then p.(conns := p.conns[id := p.conns[id].(inUse := false)])
      else p
  }

  // ---------------------------------------------------------------------------------------------
  // What the operations keep

  lemma EraseKeeps(p: Pool, i: nat)
    requires WellFormed(p) && i < |p.order|
    ensures WellFormed(EraseAt(p, i))
    ensures forall id :: id in EraseAt(p, i).conns <==> id in p.conns && id != p.order[i]
  {
    var order := EraseAt(p, i).order;
    forall id ensures id in order <==> id in p.order && id != p.order[i] {
      if id in p.order && id != p.order[i] {
        var k :| 0 <= k < |p.order| && p.order[k] == id;
        assert order[if k < i then k else k - 1] == id;
      }
    }
  }

  lemma AppendKeeps(p: Pool, id: nat)
    requires WellFormed(p) && id !in p.conns
    ensures WellFormed(Append(p, id))
  {
  }

  /** In a well-formed pool a release finds its slot iff it is pooled; one slot goes, or only its lease does. */
  lemma ReleaseMeaning(p: Pool, size: nat, id: nat, keep: bool)
    requires WellFormed(p)
    ensures var q := Release(p, size, id, keep);
      && WellFormed(q)
      && (id !in p.conns ==> q == p)
      && (id in p.conns && (!keep || |p.order| > size) ==>
            && |q.order| == |p.order| - 1
            && (forall k :: k in q.conns <==> k in p.conns && k != id)
            && (forall k :: k in q.conns ==> q.conns[k] == p.conns[k]))
      && (id in p.conns && keep && |p.order| <= size ==>
            q == Pool(p.order, p.conns[id := p.conns[id].(inUse := false)]))
  {
    match Position(p.order, id, 0)
    case None => assert p.order[0..] == p.order;
    case Some(i) => EraseKeeps(p, i);
  }

  function Elements(order: seq<nat>): set<nat> {
    set id | id in order
  }

  /** What a search that ends at position i leads to. */
  lemma ReleaseAt(p: Pool, size: nat, id: nat, keep: bool, i: nat)
    requires WellFormed(p) && i <= |p.order| && id !in p.order[..i] && (i < |p.order| ==> p.order[i] == id)
    ensures WellFormed(Release(p, size, id, keep))
    ensures i < |p.order| ==> id in p.conns
    ensures Release(p, size, id, keep)
         == if i == |p.order| then p
            else if !keep || |p.order| > size then EraseAt(p, i)
            else Pool(p.order, p.conns[id := p.conns[id].(inUse := false)])
  {
    PositionIsFirst(p.order, id, i);
    ReleaseMeaning(p, size, id, keep);
  }

  lemma {:induction false} DistinctSize(order: seq<nat>)
    requires forall i, j :: 0 <= i < j < |order| ==> order[i] != order[j]
    ensures |Elements(order)| == |order|
  {
    if order != [] {
      DistinctSize(order[1..]);
      assert Elements(order) == {order[0]} + Elements(order[1..]);
    }
  }

  // ---------------------------------------------------------------------------------------------
  // The code's loops

  class ConnectionPool {
    const size: nat
    var order: seq<nat>
    var conns: map<nat, Conn>

    ghost function View(): Pool
      reads this
    {
      Pool(order, conns)
    }

    constructor (size: nat)
      ensures this.size == size && View() == Pool([], map[]) && WellFormed(View())
    {
      this.size := size;
      order, conns := [], map[];
    }

    /** One of the two scans that start `acquire_connection`: takes the first idle slot in that state. */
    method TakeIdle(connected: bool) returns (slot: Option<nat>)
      requires WellFormed(View())
      modifies this`conns
      ensures WellFormed(View())
      ensures match FirstIdle(old(View()), connected, 0)
        case Some(i) => slot == Some(order[i]) && View() == MarkInUse(old(View()), order[i])
        case None => slot == None && View() == old(View())
    {
      for i := 0 to |order|
        invariant FirstIdle(View(), connected, 0) == FirstIdle(View(), connected, i)
        invariant conns == old(conns)
      {
        assert order[i] in order;
        if !conns[order[i]].inUse && conns[order[i]].connected == connected {
          conns := conns[order[i] := conns[order[i]].(inUse := true)];
          return Some(order[i]);
        }
      }
      return None;
    }

    method ReleaseConnection(slot: nat, keepAlive: bool)
      requires WellFormed(View())
      modifies this`order, this`conns
      ensures View() == Release(old(View()), size, slot, keepAlive) && WellFormed(View())
    {
      var i := 0;
      while i < |order| && order[i] != slot
        invariant 0 <= i <= |order| && slot !in order[..i]
      {
        i := i + 1;
      }
      ReleaseAt(View(), size, slot, keepAlive, i);
      if i == |order| {
        return;
      }
      if !keepAlive || |order| > size {
        order, conns := order[..i] + order[i + 1..], conns - {order[i]};
        return;
      }
      conns := conns[slot := conns[slot].(inUse := false)];
    }
  }
}
