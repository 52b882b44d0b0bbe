/** The eviction policy over whole runs: the list is ordered by last use, so the victims are the
    tracked keys that have gone unused the longest. */
module LruHistory {
  import opened Sequences
  import opened LruPolicy

  datatype Call =
    | OnAdd(key: Key, size: nat)
    | OnUpdate(key: Key, size: nat)
    | OnAccess(key: Key)
    | OnEvict(key: Key)
    | OnRemove(key: Key)

  // ---- Last use, told from the calls alone -----------------------------------------------

  /** The last call that added or dropped the key added it. */
  predicate Tracked(calls: seq<Call>, key: Key)
  {
    if calls == [] then false
    else
      var n := |calls| - 1;
      var call := calls[n];
      if call.key != key || call.OnAccess? then Tracked(calls[..n], key)
      else call.OnAdd? || call.OnUpdate?
  }

  /** When the key was last touched: added, updated, or accessed while tracked. */
  function LastTouch(calls: seq<Call>, key: Key): nat
  {
    if calls == [] then 0
    else
      var n := |calls| - 1;
      var call := calls[n];
      if call.key == key && (call.OnAdd? || call.OnUpdate? || (call.OnAccess? && Tracked(calls[..n], key)))
      then |calls| else LastTouch(calls[..n], key)
  }

  lemma {:induction false} LastTouchBound(calls: seq<Call>, key: Key)
    ensures LastTouch(calls, key) <= |calls|
  {
    if calls != [] { LastTouchBound(calls[..|calls| - 1], key); }
  }

  // ---- The sequence after a run ----------------------------------------------------------

  function Step(order: seq<Key>, call: Call): seq<Key>
  {
    match call
    case OnAdd(key, _) => Added(order, key)
    case OnUpdate(key, _) => Added(order, key)
    case OnAccess(key) => Touched(order, key)
    case OnEvict(key) => Without(order, key)
    case OnRemove(key) => Without(order, key)
  }

  function Order(calls: seq<Call>): seq<Key>
  {
    if calls == [] then [] else Step(Order(calls[..|calls| - 1]), calls[|calls| - 1])
  }

  ghost predicate SortedByUse(calls: seq<Call>, order: seq<Key>)
  {
    forall i, j :: 0 <= i < j < |order| ==> LastTouch(calls, order[i]) < LastTouch(calls, order[j])
  }

  lemma SortedAt(calls: seq<Call>, order: seq<Key>, i: nat, j: nat)
    requires SortedByUse(calls, order) && i < j < |order|
    ensures LastTouch(calls, order[i]) < LastTouch(calls, order[j])
  {
  }

  /** Taking a key out keeps the others in order. */
  lemma WithoutSorted(calls: seq<Call>, order: seq<Key>, key: Key)
    requires NoDup(order) && SortedByUse(calls, order)
    ensures SortedByUse(calls, Without(order, key))
  {
    if key in order {
      var n :| 0 <= n < |order| && order[n] == key;
      WithoutAt(order, n);
      var rest := Without(order, key);
      forall i, j | 0 <= i < j < |rest| ensures LastTouch(calls, rest[i]) < LastTouch(calls, rest[j]) {
        SortedAt(calls, order, if i < n then i else i + 1, if j < n then j else j + 1);
      }
    } else {
      WithoutAbsent(order, key);
    }
  }

  /** A later call leaves the last use of every key it does not name. */
  lemma UntouchedSorted(calls: seq<Call>, order: seq<Key>)
    requires calls != [] && SortedByUse(calls[..|calls| - 1], order)
    requires forall k :: k in order ==> LastTouch(calls, k) == LastTouch(calls[..|calls| - 1], k)
    ensures SortedByUse(calls, order)
  {
    forall i, j | 0 <= i < j < |order| ensures LastTouch(calls, order[i]) < LastTouch(calls, order[j]) {
      assert order[i] in order && order[j] in order;
    }
  }

  lemma AppendSorted(calls: seq<Call>, order: seq<Key>, key: Key)
    requires SortedByUse(calls, order) && forall k :: k in order ==> LastTouch(calls, k) < LastTouch(calls, key)
    ensures SortedByUse(calls, order + [key])
  {
    var longer := order + [key];
    forall i, j | 0 <= i < j < |longer| ensures LastTouch(calls, longer[i]) < LastTouch(calls, longer[j]) {
      if j == |order| { assert longer[i] in order; }
    }
  }

  /** After every run the list holds exactly the tracked keys, once each, in order of last use. */
  lemma {:induction false} OrderIsByLastUse(calls: seq<Call>)
    ensures NoDup(Order(calls)) && SortedByUse(calls, Order(calls))
    ensures forall k :: k in Order(calls) <==> Tracked(calls, k)
  {
    if calls != [] {
      var n := |calls| - 1;
      var before, call := calls[..n], calls[n];
      var order := Order(before);
      var rest := Without(order, call.key);
      OrderIsByLastUse(before);
      WithoutFacts(order, call.key);
      WithoutSorted(before, order, call.key);
      UntouchedSorted(calls, rest);
      forall k ensures k in rest ==> LastTouch(calls, k) < |calls| { LastTouchBound(before, k); }
      if call.OnAdd? || call.OnUpdate? || (call.OnAccess? && call.key in order) {
        AddedFacts(order, call.key);
        AppendSorted(calls, rest, call.key);
      } else if call.OnAccess? {
        UntouchedSorted(calls, order);
      }
    }
  }

  lemma FrontSorted(calls: seq<Call>, order: seq<Key>, n: nat)
    requires SortedByUse(calls, order) && n <= |order|
    ensures SortedByUse(calls, order[..n])
  {
    forall i, j | 0 <= i < j < n ensures LastTouch(calls, order[..n][i]) < LastTouch(calls, order[..n][j]) {
      SortedAt(calls, order, i, j);
    }
  }

  lemma FrontIsOlder(calls: seq<Call>, order: seq<Key>, n: nat, v: Key, k: Key)
    requires SortedByUse(calls, order) && n <= |order| && v in order[..n] && k in order && k !in order[..n]
    ensures LastTouch(calls, v) < LastTouch(calls, k)
  {
    var i :| 0 <= i < n && order[..n][i] == v;
    var j :| 0 <= j < |order| && order[j] == k;
    assert n <= j;
    SortedAt(calls, order, i, j);
  }

  /** What the policy offers for eviction after a run when it is over its limits: as many tracked
      keys as asked for and available, each unused for longer than every key it leaves, and
      longest unused first. */
  lemma VictimsAreOldest(calls: seq<Call>, count: nat)
    ensures var victims := Order(calls)[..Min(count, |Order(calls)|)];
      && SortedByUse(calls, victims)
      && (forall k :: k in victims ==> Tracked(calls, k))
      && (forall v, k :: v in victims && Tracked(calls, k) && k !in victims ==>
          LastTouch(calls, v) < LastTouch(calls, k))
      && (|victims| < count ==> forall k :: Tracked(calls, k) ==> k in victims)
  {
    OrderIsByLastUse(calls);
    var order := Order(calls);
    var n := Min(count, |order|);
    FrontSorted(calls, order, n);
    forall v, k | v in order[..n] && Tracked(calls, k) && k !in order[..n]
      ensures LastTouch(calls, v) < LastTouch(calls, k)
    {
      FrontIsOlder(calls, order, n, v, k);
    }
    assert n < count ==> order[..n] == order;
  }

  /** Running the calls on the linked list arrives at the same sequence. */
  method Replay(policy: LRUPolicy, calls: seq<Call>)
    requires policy.Valid() && policy.order == []
    requires forall i :: 0 <= i < |calls| ==> (calls[i].OnAdd? || calls[i].OnUpdate? ==> calls[i].size < WORD)
    modifies policy
    ensures policy.Valid() && policy.order == Order(calls)
  {
    for i := 0 to |calls|
      invariant policy.Valid() && policy.order == Order(calls[..i])
    {
      assert calls[..i + 1][..i] == calls[..i];
      match calls[i]
      case OnAdd(key, size) => policy.OnAdd(key, size);
      case OnUpdate(key, size) => policy.OnUpdate(key, size);
      case OnAccess(key) => policy.OnAccess(key);
      case OnEvict(key) => policy.OnEvict(key);
      case OnRemove(key) => policy.OnRemove(key);
    }
    assert calls[..|calls|] == calls;
  }
}
