/** The bounded memory of recently delivered (service, scope, sequence) keys. */
module Dedupe {
  import opened Bytes

  const DEFAULT_CAPACITY: nat := 4096

  datatype Key = Key(serviceId: u16, peerScope: Option<u32>, sequence: u64)

  /** The last `capacity` elements of a history. */
  function Recent(history: seq<Key>, capacity: nat): (s: seq<Key>) {
    if |history| <= capacity then history else history[|history| - capacity..]
  }

  /** The keys answered first-seen when `observed` arrives in order. */
  function FirstSeen(observed: seq<Key>, capacity: nat): (history: seq<Key>) {
    if observed == [] then []
    else
      var before, key := FirstSeen(observed[..|observed| - 1], capacity), observed[|observed| - 1];
      if key in Recent(before, capacity) then before else before + [key]
  }

  /** Remembering a key not in the window, on the window alone. */
  function Remember(window: seq<Key>, capacity: nat, key: Key): (s: seq<Key>) {
    Recent(window + [key], capacity)
  }

  lemma RememberIsRecent(history: seq<Key>, capacity: nat, key: Key)
    requires capacity > 0
    ensures Remember(Recent(history, capacity), capacity, key) == Recent(history + [key], capacity)
  {
  }

  /** A key answered first-seen twice was forgotten in between: at least `capacity` others came first. */
  lemma {:induction false} RepeatsAreFarApart(observed: seq<Key>, capacity: nat, i: nat, j: nat)
    requires i < j < |FirstSeen(observed, capacity)|
    requires FirstSeen(observed, capacity)[i] == FirstSeen(observed, capacity)[j]
    ensures j - i - 1 >= capacity
    decreases |observed|
  {
    var before, key := FirstSeen(observed[..|observed| - 1], capacity), observed[|observed| - 1];
    if j < |before| {
      RepeatsAreFarApart(observed[..|observed| - 1], capacity, i, j);
    } else {
      var recent := Recent(before, capacity);
      forall k | |before| - |recent| <= k < |before| ensures before[k] in recent {
        assert before[k] == recent[k - (|before| - |recent|)];
      }
    }
  }

  /** The set holds exactly the queue's keys, none of which occurs twice. */
  ghost predicate Mirrors(seen: set<Key>, order: seq<Key>) {
    && (forall k :: k in seen <==> k in order)
    && (forall i, j :: 0 <= i < j < |order| ==> order[i] != order[j])
  }

  lemma MirrorsPush(seen: set<Key>, order: seq<Key>, key: Key)
    requires Mirrors(seen, order) && key !in seen
    ensures Mirrors(seen + {key}, order + [key])
  {
    assert forall i :: 0 <= i < |order| ==> order[i] in seen;
  }

  lemma MirrorsPop(seen: set<Key>, order: seq<Key>)
    requires Mirrors(seen, order) && order != []
    ensures Mirrors(seen - {order[0]}, order[1..])
  {
    assert order == [order[0]] + order[1..];
  }

  class DedupeWindow {
    const capacity: nat
    var seen: set<Key>
    var order: seq<Key>
    /** Every key ever observed. */
    ghost var observed: seq<Key>

    ghost predicate Valid()
      reads this
    {
      && capacity >= 1 && |order| <= capacity
      && Mirrors(seen, order)
      && order == Recent(FirstSeen(observed, capacity), capacity)
    }

    constructor (wanted: nat)
      ensures Valid() && observed == [] && capacity == if wanted < 1 then 1 else wanted
    {
      capacity := if wanted < 1 then 1 else wanted;
      seen, order, observed := {}, [], [];
    }

    /** The set and the queue stand for the last `capacity` first-seen keys of the whole run. */
    method ObserveInScope(serviceId: u16, peerScope: Option<u32>, sequence: u64) returns (first: bool)
      requires Valid()
      modifies this
      ensures Valid() && observed == old(observed) + [Key(serviceId, peerScope, sequence)]
      ensures first <==> Key(serviceId, peerScope, sequence) !in Recent(FirstSeen(old(observed), capacity), capacity)
      ensures order == if first then Remember(old(order), capacity, Key(serviceId, peerScope, sequence)) else old(order)
    {
      hide FirstSeen, Mirrors;
      var key := Key(serviceId, peerScope, sequence);
      ghost var history := FirstSeen(observed, capacity);
      FirstSeenNext(observed, capacity, key);
      observed := observed + [key];
      var known := key in seen;
      assert known <==> key in order by { MirrorsMember(seen, order, key); }
      if known {
        return false;
      }
      RememberIsRecent(history, capacity, key);
      MirrorsPush(seen, order, key);
      seen := seen + {key};
      order := order + [key];
      ghost var grown := order;
      while |order| > capacity
        invariant |order| <= capacity + 1 == |grown| || order == grown
        invariant order == grown || order == grown[1..]
        invariant Mirrors(seen, order) && observed == old(observed) + [key]
      {
        var expired := order[0];
        MirrorsPop(seen, order);
        order := order[1..];
        seen := seen - {expired};
      }
      first := true;
    }
  }

  lemma MirrorsMember(seen: set<Key>, order: seq<Key>, key: Key)
    requires Mirrors(seen, order)
    ensures key in seen <==> key in order
  {
  }

  lemma FirstSeenNext(observed: seq<Key>, capacity: nat, key: Key)
    ensures FirstSeen(observed + [key], capacity) ==
            var before := FirstSeen(observed, capacity);
            if key in Recent(before, capacity) then before else before + [key]
  {
    assert (observed + [key])[..|observed|] == observed;
  }
}
