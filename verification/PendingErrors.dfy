/** Unobserved errors: a map from cancellation id to error, the order they were
    recorded in with tombstones for forgotten ones, and a count of those. */
module PendingErrors {
  import opened Sequences
  import opened Wrappers

  const ERROR_COMPACTION_THRESHOLD := 1024

  /** The errors still pending, oldest first: the queue the three fields stand for. */
  function Queue<V>(pending: map<nat, V>, order: seq<nat>): seq<(nat, V)> {
    if order == [] then []
    else if order[0] in pending then [(order[0], pending[order[0]])] + Queue(pending, order[1..])
    else Queue(pending, order[1..])
  }

  /** A queue without the entries recorded under `id`. */
  function Without<V>(queue: seq<(nat, V)>, id: nat): seq<(nat, V)> {
    if queue == [] then []
    else if queue[0].0 == id then Without(queue[1..], id)
    else [queue[0]] + Without(queue[1..], id)
  }

  function Retained<V>(pending: map<nat, V>, order: seq<nat>): seq<nat> {
    if order == [] then []
    else if order[0] in pending then [order[0]] + Retained(pending, order[1..])
    else Retained(pending, order[1..])
  }

  // ----- The queue under each change of the fields -----

  lemma {:induction false} QueueAppends<V>(pending: map<nat, V>, order: seq<nat>, id: nat, error: V)
    requires id !in order && id !in pending
    ensures Queue(pending[id := error], order + [id]) == Queue(pending, order) + [(id, error)]
  {
    if order == [] {
      assert (order + [id])[1..] == [];
    } else {
      assert (order + [id])[1..] == order[1..] + [id];
      QueueAppends(pending, order[1..], id, error);
    }
  }

  lemma {:induction false} QueueForgets<V>(pending: map<nat, V>, order: seq<nat>, id: nat)
    ensures Queue(pending - {id}, order) == Without(Queue(pending, order), id)
  {
    if order != [] {
      QueueForgets(pending, order[1..], id);
      if order[0] in pending {
        assert Queue(pending, order)[1..] == Queue(pending, order[1..]);
      }
    }
  }

  lemma {:induction false} WithoutAbsent<V>(pending: map<nat, V>, order: seq<nat>, id: nat)
    requires id !in pending || id !in order
    ensures Without(Queue(pending, order), id) == Queue(pending, order)
  {
    if order != [] {
      WithoutAbsent(pending, order[1..], id);
      if order[0] in pending {
        assert Queue(pending, order)[1..] == Queue(pending, order[1..]);
      }
    }
  }

  /** Dropping tombstones does not change the queue. */
  lemma {:induction false} RetainedIsSameQueue<V>(pending: map<nat, V>, order: seq<nat>)
    ensures Queue(pending, Retained(pending, order)) == Queue(pending, order)
    ensures forall id :: id in Retained(pending, order) <==> id in order && id in pending
    ensures Distinct(order) ==> Distinct(Retained(pending, order))
  {
    if order != [] {
      assert order == [order[0]] + order[1..];
      RetainedIsSameQueue(pending, order[1..]);
      var rest := Retained(pending, order[1..]);
      if order[0] in pending {
        assert ([order[0]] + rest)[1..] == rest;
        assert forall j :: 0 <= j < |rest| ==> rest[j] in rest;
      }
    }
  }

  lemma {:induction false} DistinctSize(order: seq<nat>, ids: set<nat>)
    requires Distinct(order) && forall id :: id in ids <==> id in order
    ensures |order| == |ids|
  {
    if order == [] {
      assert ids == {};
    } else {
      assert order == [order[0]] + order[1..];
      DistinctSize(order[1..], ids - {order[0]});
    }
  }

  ghost predicate WellFormed<V>(pending: map<nat, V>, order: seq<nat>, stale: nat, nextId: nat) {
    && Distinct(order)
    && (forall id :: id in order ==> id < nextId)
    && (forall id :: id in pending ==> id in order)
    && stale == |order| - |pending|
    && (pending == map[] ==> order == [])
  }

  // ----- The fields -----

  class PendingErrors<V> {
    var pending: map<nat, V>
    var order: seq<nat>
    var stale: nat
    var nextId: nat

    ghost predicate Valid()
      reads this
    {
      WellFormed(pending, order, stale, nextId)
    }

    ghost function Contents(): seq<(nat, V)>
      reads this
    {
      Queue(pending, order)
    }

    constructor ()
      ensures Valid() && Contents() == []
    {
      pending, order, stale, nextId := map[], [], 0, 0;
    }

    method Record(error: V) returns (id: nat)
      requires Valid()
      modifies this
      ensures Valid() && Contents() == old(Contents()) + [(id, error)]
      ensures nextId == old(nextId) + 1 && id == old(nextId)
    {
      id := nextId;
      nextId := nextId + 1;
      assert id !in order && id !in pending;
      QueueAppends(pending, order, id, error);
      pending := pending[id := error];
      order := order + [id];
    }

    /** Cancels a record. After an effective cancellation the order is bounded
        by the number of errors still pending. */
    method Forget(id: nat)
      requires Valid()
      modifies this
      ensures Valid() && Contents() == Without(old(Contents()), id) && nextId == old(nextId)
      ensures id in old(pending) && pending != map[] ==>
                |order| <= |pending| + 1023 || |order| <= 2 * |pending| - 1
      ensures pending == map[] ==> order == []
    {
      if id !in pending {
        WithoutAbsent(pending, order, id);
        return;
      }
      QueueForgets(pending, order, id);
      pending := pending - {id};
      if pending == map[] {
        EmptyQueue(pending, order);
        order, stale := [], 0;
      } else {
        stale := stale + 1;
        Compact();
      }
    }

    /** Rewrites the order only where that drops at least 1024 ids and half of them. */
    method Compact()
      requires Valid() && pending != map[]
      modifies this`order, this`stale
      ensures Valid() && Contents() == old(Contents())
      ensures |order| <= |pending| + 1023 || |order| <= 2 * |pending| - 1
      ensures order != old(order) ==> |order| + 1024 <= |old(order)| && 2 * |order| <= |old(order)|
    {
      if stale < ERROR_COMPACTION_THRESHOLD || stale < (|order| + 1) / 2 {
        return;
      }
      CompactedWell(pending, order, stale, nextId);
      var retained := Retain(pending, order);
      order, stale := retained, 0;
    }

    /** Surfaces the oldest error still pending. */
    method Take() returns (r: Option<V>)
      requires Valid()
      modifies this
      ensures Valid() && nextId == old(nextId)
      ensures r.None? <==> old(Contents()) == []
      ensures r.Some? ==> r.value == old(Contents())[0].1 && Contents() == old(Contents())[1..]
      ensures r.None? ==> Contents() == []
    {
      hide WellFormed, Queue;
      EmptyOrder(pending);
      while order != []
        invariant Valid() && nextId == old(nextId) && Contents() == old(Contents())
        invariant order == [] ==> Contents() == []
        decreases |order|
      {
        if order[0] in pending {
          var error := TakeHead();
          return Some(error);
        }
        HeadDropped(pending, order, stale, nextId);
        order, stale := order[1..], SaturatingDecrement(stale);
      }
      return None;
    }

    method TakeHead() returns (error: V)
      requires Valid() && order != [] && order[0] in pending
      modifies this
      ensures Valid() && nextId == old(nextId)
      ensures old(Contents()) != [] && error == old(Contents())[0].1 && Contents() == old(Contents())[1..]
    {
      hide WellFormed, Queue;
      HeadTaken(pending, order, stale, nextId);
      error := pending[order[0]];
      pending, order := pending - {order[0]}, order[1..];
      if pending == map[] {
        order, stale := [], 0;
      }
    }
  }

  function SaturatingDecrement(n: nat): nat {
    if n > 0 then n - 1 else 0
  }

  method Retain<V>(pending: map<nat, V>, order: seq<nat>) returns (retained: seq<nat>)
    ensures retained == Retained(pending, order)
  {
    retained := [];
    for k := 0 to |order|
      invariant retained == Retained(pending, order[..k])
    {
      RetainedAppends(pending, order[..k], order[k]);
      assert order[..k + 1] == order[..k] + [order[k]];
      if order[k] in pending {
        retained := retained + [order[k]];
      }
    }
    assert order[..|order|] == order;
  }

  lemma CompactedWell<V>(pending: map<nat, V>, order: seq<nat>, stale: nat, nextId: nat)
    requires WellFormed(pending, order, stale, nextId)
    ensures WellFormed(pending, Retained(pending, order), 0, nextId)
    ensures |Retained(pending, order)| == |pending|
    ensures Queue(pending, Retained(pending, order)) == Queue(pending, order)
  {
    RetainedIsSameQueue(pending, order);
    DistinctSize(Retained(pending, order), pending.Keys);
    if pending == map[] {
      assert Retained(pending, order) == [];
    }
  }

  lemma TailDistinct(order: seq<nat>)
    requires Distinct(order) && order != []
    ensures Distinct(order[1..]) && forall id :: id in order[1..] <==> id in order && id != order[0]
  {
    assert order == [order[0]] + order[1..];
  }

  lemma EmptyOrder<V>(pending: map<nat, V>)
    ensures Queue(pending, []) == []
  {
  }

  lemma HeadTaken<V>(pending: map<nat, V>, order: seq<nat>, stale: nat, nextId: nat)
    requires WellFormed(pending, order, stale, nextId) && order != [] && order[0] in pending
    ensures var rest := pending - {order[0]};
            && Queue(pending, order) == [(order[0], pending[order[0]])] + Queue(rest, order[1..])
            && (rest != map[] ==> WellFormed(rest, order[1..], stale, nextId))
            && (rest == map[] ==> WellFormed(rest, [], 0, nextId) && Queue(rest, []) == Queue(rest, order[1..]))
  {
    TailDistinct(order);
    QueueHead(pending, order);
    EmptyQueue<V>(map[], order[1..]);
  }

  lemma HeadDropped<V>(pending: map<nat, V>, order: seq<nat>, stale: nat, nextId: nat)
    requires WellFormed(pending, order, stale, nextId) && order != [] && order[0] !in pending
    ensures stale > 0 && WellFormed(pending, order[1..], stale - 1, nextId)
    ensures Queue(pending, order[1..]) == Queue(pending, order)
    ensures order[1..] == [] ==> Queue(pending, order[1..]) == []
  {
    TailDistinct(order);
    TombstonesCounted(pending, order);
  }

  lemma QueueHead<V>(pending: map<nat, V>, order: seq<nat>)
    requires Distinct(order) && order != [] && order[0] in pending
    ensures Queue(pending, order) == [(order[0], pending[order[0]])] + Queue(pending - {order[0]}, order[1..])
  {
    TailDistinct(order);
    QueueForgets(pending, order[1..], order[0]);
    WithoutAbsent(pending, order[1..], order[0]);
  }

  lemma {:induction false} EmptyQueue<V>(pending: map<nat, V>, order: seq<nat>)
    requires pending == map[]
    ensures Queue(pending, order) == []
  {
    if order != [] {
      EmptyQueue(pending, order[1..]);
    }
  }

  lemma {:induction false} RetainedAppends<V>(pending: map<nat, V>, order: seq<nat>, id: nat)
    ensures Retained(pending, order + [id]) == Retained(pending, order) + if id in pending then [id] else []
  {
    if order == [] {
      assert (order + [id])[1..] == [];
    } else {
      assert (order + [id])[1..] == order[1..] + [id];
      RetainedAppends(pending, order[1..], id);
    }
  }

  /** With a tombstone in front, fewer errors are pending than ids are queued. */
  lemma TombstonesCounted<V>(pending: map<nat, V>, order: seq<nat>)
    requires Distinct(order) && order != [] && order[0] !in pending
    requires forall id :: id in pending ==> id in order
    ensures |pending| < |order|
  {
    var ids := set id | id in order;
    DistinctSize(order, ids);
    FewerKeys(pending.Keys, ids, order[0]);
  }

  lemma FewerKeys(keys: set<nat>, ids: set<nat>, id: nat)
    requires keys <= ids && id in ids && id !in keys
    ensures |keys| < |ids|
  {
    var others := ids - {id} - keys;
    assert ids == keys + others + {id};
  }
}
