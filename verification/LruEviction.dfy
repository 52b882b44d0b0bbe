/** Eviction in batches. A key may be tracked without being resident; such a key is offered as a
    victim and never goes, so the loop can come to a round that changes nothing and repeats it. */
module LruEviction {
  import opened Wrappers
  import opened Sequences
  import opened LruPolicy

  // ---- Rounds on the recency sequence ----------------------------------------------------

  /** The victims that stay because nothing of them is resident. */
  function Survivors(victims: seq<Key>, resident: set<Key>): seq<Key>
  {
    if victims == [] then []
    else
      var n := |victims| - 1;
      if victims[n] in resident then Survivors(victims[..n], resident)
      else Survivors(victims[..n], resident) + [victims[n]]
  }

  function Round(order: seq<Key>, resident: set<Key>, batch: nat): seq<Key>
  {
    var m := Min(batch, |order|);
    Survivors(order[..m], resident) + order[m..]
  }

  function Rounds(order: seq<Key>, resident: set<Key>, batch: nat, n: nat): seq<Key>
    decreases n
  {
    if n == 0 then order else Rounds(Round(order, resident, batch), resident, batch, n - 1)
  }

  predicate Over(nodes: map<Key, Node>, order: seq<Key>, maxMemory: nat, maxObjects: Option<nat>)
  {
    Total(nodes, order) % WORD > maxMemory || (maxObjects.Some? && |order| % WORD > maxObjects.value)
  }

  /** None of the next victims is resident. */
  predicate Stuck(order: seq<Key>, resident: set<Key>, batch: nat)
  {
    forall i :: 0 <= i < Min(batch, |order|) ==> order[i] !in resident
  }

  lemma {:induction false} SurvivorsLength(victims: seq<Key>, resident: set<Key>)
    ensures |Survivors(victims, resident)| <= |victims|
    ensures |Survivors(victims, resident)| == |victims| <==> forall i :: 0 <= i < |victims| ==> victims[i] !in resident
    ensures |Survivors(victims, resident)| == |victims| ==> Survivors(victims, resident) == victims
  {
    if victims != [] {
      var n := |victims| - 1;
      SurvivorsLength(victims[..n], resident);
      assert forall i :: 0 <= i < n ==> victims[..n][i] == victims[i];
    }
  }

  /** A round shortens the list, unless none of the next victims is resident: then it changes
      nothing. */
  lemma RoundShortens(order: seq<Key>, resident: set<Key>, batch: nat)
    ensures Stuck(order, resident, batch) ==> Round(order, resident, batch) == order
    ensures !Stuck(order, resident, batch) ==> |Round(order, resident, batch)| < |order|
  {
    var m := Min(batch, |order|);
    SurvivorsLength(order[..m], resident);
    assert forall i :: 0 <= i < m ==> order[..m][i] == order[i];
    assert order[..m] + order[m..] == order;
  }

  lemma {:induction false} StuckForEver(order: seq<Key>, resident: set<Key>, batch: nat, n: nat)
    requires Stuck(order, resident, batch)
    ensures Rounds(order, resident, batch, n) == order
    decreases n
  {
    if n > 0 {
      RoundShortens(order, resident, batch);
      StuckForEver(order, resident, batch, n - 1);
    }
  }

  // ---- What eviction can clear at most ---------------------------------------------------

  /** The list without the resident keys that are older than the `batch`-th key that is not. */
  function Cleared(order: seq<Key>, resident: set<Key>, batch: nat): seq<Key>
  {
    if order == [] || batch == 0 then order
    else if order[0] in resident then Cleared(order[1..], resident, batch)
    else [order[0]] + Cleared(order[1..], resident, batch - 1)
  }

  lemma {:induction false} StuckIsCleared(order: seq<Key>, resident: set<Key>, batch: nat)
    requires Stuck(order, resident, batch)
    ensures Cleared(order, resident, batch) == order
  {
    if order != [] && batch != 0 {
      forall i | 0 <= i < Min(batch - 1, |order[1..]|) ensures order[1..][i] !in resident {
        assert order[i + 1] !in resident;
      }
      StuckIsCleared(order[1..], resident, batch - 1);
    }
  }

  /** Clearing first the resident ones among some of the oldest keys does not change the end. */
  lemma {:induction false} ClearedAfterFront(front: seq<Key>, rest: seq<Key>, resident: set<Key>, batch: nat)
    requires |front| <= batch
    ensures Cleared(Survivors(front, resident) + rest, resident, batch) == Cleared(front + rest, resident, batch)
  {
    if front == [] {
      assert Survivors(front, resident) + rest == rest && front + rest == rest;
    } else {
      var n := |front| - 1;
      var last := front[n];
      ClearedAfterFront(front[..n], [last] + rest, resident, batch);
      assert front[..n] + ([last] + rest) == front + rest;
      SurvivorsLength(front[..n], resident);
      ClearedSkips(Survivors(front[..n], resident), last, rest, resident, batch);
      if last !in resident {
        assert Survivors(front, resident) + rest == Survivors(front[..n], resident) + ([last] + rest);
      }
    }
  }

  /** A resident key behind fewer than `batch` others is cleared anyway. */
  lemma {:induction false} ClearedSkips(before: seq<Key>, key: Key, rest: seq<Key>, resident: set<Key>, batch: nat)
    requires |before| < batch
    ensures key in resident ==>
      Cleared(before + ([key] + rest), resident, batch) == Cleared(before + rest, resident, batch)
  {
    if key in resident {
      if before == [] {
        assert before + ([key] + rest) == [key] + rest && before + rest == rest;
        assert ([key] + rest)[1..] == rest;
      } else {
        assert (before + ([key] + rest))[1..] == before[1..] + ([key] + rest);
        assert (before + rest)[1..] == before[1..] + rest;
        ClearedSkips(before[1..], key, rest, resident, if before[0] in resident then batch else batch - 1);
      }
    }
  }

  lemma RoundKeepsCleared(order: seq<Key>, resident: set<Key>, batch: nat)
    ensures Cleared(Round(order, resident, batch), resident, batch) == Cleared(order, resident, batch)
  {
    var m := Min(batch, |order|);
    ClearedAfterFront(order[..m], order[m..], resident, batch);
    assert order[..m] + order[m..] == order;
  }

  lemma {:induction false} RoundsKeepCleared(order: seq<Key>, resident: set<Key>, batch: nat, n: nat)
    ensures Cleared(Rounds(order, resident, batch, n), resident, batch) == Cleared(order, resident, batch)
    decreases n
  {
    if n > 0 {
      RoundKeepsCleared(order, resident, batch);
      RoundsKeepCleared(Round(order, resident, batch), resident, batch, n - 1);
    }
  }

  lemma {:induction false} ClearedIsLess(nodes: map<Key, Node>, order: seq<Key>, resident: set<Key>, batch: nat)
    ensures Total(nodes, Cleared(order, resident, batch)) <= Total(nodes, order)
    ensures |Cleared(order, resident, batch)| <= |order|
  {
    if order != [] && batch != 0 {
      ClearedIsLess(nodes, order[1..], resident, if order[0] in resident then batch else batch - 1);
      var rest := Cleared(order[1..], resident, batch - 1);
      assert ([order[0]] + rest)[1..] == rest;
    }
  }

  /** The counters do not wrap around. */
  predicate Exact(nodes: map<Key, Node>, order: seq<Key>) { Total(nodes, order) < WORD && |order| < WORD }

  lemma RoundIsLess(nodes: map<Key, Node>, order: seq<Key>, resident: set<Key>, batch: nat)
    ensures Total(nodes, Round(order, resident, batch)) <= Total(nodes, order) &&
      |Round(order, resident, batch)| <= |order|
  {
    var m := Min(batch, |order|);
    SurvivorsLength(order[..m], resident);
    SurvivorsTotal(nodes, order[..m], resident);
    TotalConcat(nodes, order[..m], order[m..]);
    TotalConcat(nodes, Survivors(order[..m], resident), order[m..]);
    assert order[..m] + order[m..] == order;
  }

  lemma {:induction false} RoundsAreLess(nodes: map<Key, Node>, order: seq<Key>, resident: set<Key>, batch: nat, n: nat)
    requires Exact(nodes, order)
    ensures Exact(nodes, Rounds(order, resident, batch, n))
    decreases n
  {
    if n > 0 {
      RoundIsLess(nodes, order, resident, batch);
      RoundsAreLess(nodes, Round(order, resident, batch), resident, batch, n - 1);
    }
  }

  lemma {:induction false} SurvivorsTotal(nodes: map<Key, Node>, victims: seq<Key>, resident: set<Key>)
    ensures Total(nodes, Survivors(victims, resident)) <= Total(nodes, victims)
  {
    if victims != [] {
      var n := |victims| - 1;
      SurvivorsTotal(nodes, victims[..n], resident);
      TotalConcat(nodes, victims[..n], [victims[n]]);
      TotalConcat(nodes, Survivors(victims[..n], resident), [victims[n]]);
      assert victims[..n] + [victims[n]] == victims;
    }
  }

  /** Some number of rounds brings the list within the limits. */
  ghost predicate Ends(nodes: map<Key, Node>, order: seq<Key>, resident: set<Key>, batch: nat, maxMemory: nat,
                       maxObjects: Option<nat>)
  {
    exists n: nat :: !Over(nodes, Rounds(order, resident, batch, n), maxMemory, maxObjects)
  }

  lemma LessIsWithin(nodes: map<Key, Node>, more: seq<Key>, less: seq<Key>, maxMemory: nat, maxObjects: Option<nat>)
    requires Exact(nodes, more) && Total(nodes, less) <= Total(nodes, more) && |less| <= |more|
    requires !Over(nodes, more, maxMemory, maxObjects)
    ensures !Over(nodes, less, maxMemory, maxObjects)
  {
    Unwrapped(Total(nodes, more), |more|);
    Unwrapped(Total(nodes, less), |less|);
  }

  lemma Unwrapped(memory: nat, count: nat)
    requires memory < WORD && count < WORD
    ensures memory % WORD == memory && count % WORD == count
  {
  }

  lemma EndIsCleared(nodes: map<Key, Node>, order: seq<Key>, resident: set<Key>, batch: nat, maxMemory: nat,
                     maxObjects: Option<nat>, n: nat)
    requires Exact(nodes, order) && !Over(nodes, Rounds(order, resident, batch, n), maxMemory, maxObjects)
    ensures !Over(nodes, Cleared(order, resident, batch), maxMemory, maxObjects)
  {
    var end := Rounds(order, resident, batch, n);
    RoundsAreLess(nodes, order, resident, batch, n);
    RoundsKeepCleared(order, resident, batch, n);
    ClearedIsLess(nodes, end, resident, batch);
    LessIsWithin(nodes, end, Cleared(end, resident, batch), maxMemory, maxObjects);
  }

  /** While the counters do not wrap around, eviction comes within the limits exactly when clearing
      every resident key older than the `batch`-th key that is not resident would. */
  lemma EndsExactly(nodes: map<Key, Node>, order: seq<Key>, resident: set<Key>, batch: nat, maxMemory: nat,
                    maxObjects: Option<nat>)
    requires Exact(nodes, order)
    ensures Ends(nodes, order, resident, batch, maxMemory, maxObjects) <==>
      !Over(nodes, Cleared(order, resident, batch), maxMemory, maxObjects)
  {
    if Ends(nodes, order, resident, batch, maxMemory, maxObjects) {
      var n: nat :| !Over(nodes, Rounds(order, resident, batch, n), maxMemory, maxObjects);
      EndIsCleared(nodes, order, resident, batch, maxMemory, maxObjects, n);
    }
    var n := ClearedIsReached(order, resident, batch);
    assert Rounds(order, resident, batch, n) == Cleared(order, resident, batch);
  }

  lemma ClearedIsReached(order: seq<Key>, resident: set<Key>, batch: nat) returns (n: nat)
    ensures Rounds(order, resident, batch, n) == Cleared(order, resident, batch)
    decreases |order|
  {
    if Stuck(order, resident, batch) {
      n := 0;
      StuckIsCleared(order, resident, batch);
    } else {
      RoundShortens(order, resident, batch);
      var next := Round(order, resident, batch);
      var m := ClearedIsReached(next, resident, batch);
      n := 1 + m;
      RoundKeepsCleared(order, resident, batch);
    }
  }

  // ---- The loop --------------------------------------------------------------------------

  function Keys(order: seq<Key>): set<Key> { set k | k in order }

  /** The next victim is next in the list, and resident as it was when the round began. */
  lemma NextVictim(victims: seq<Key>, i: nat, rest: seq<Key>, resident: set<Key>, order: seq<Key>)
    requires i < |victims| && Distinct(victims) && NoDup(order)
    requires order == Survivors(victims[..i], resident) + (victims[i..] + rest)
    ensures victims[i] in resident - Keys(victims[..i]) <==> victims[i] in resident
    ensures Keys(victims[..i + 1]) == Keys(victims[..i]) + {victims[i]}
    ensures Survivors(victims[..i + 1], resident) + (victims[i + 1..] + rest) ==
      if victims[i] in resident then Without(order, victims[i]) else order
  {
    var key, done, tail := victims[i], Survivors(victims[..i], resident), victims[i + 1..] + rest;
    assert victims[..i + 1] == victims[..i] + [key];
    assert victims[..i + 1][..i] == victims[..i];
    assert victims[i..] + rest == [key] + tail;
    EvictOne(done, key, tail);
    assert done + ([key] + tail) == done + [key] + tail;
  }

  lemma EvictOne(done: seq<Key>, key: Key, rest: seq<Key>)
    requires NoDup(done + ([key] + rest))
    ensures Without(done + ([key] + rest), key) == done + rest
  {
    var all := done + ([key] + rest);
    WithoutAt(all, |done|);
    assert all[..|done|] == done && all[|done| + 1..] == rest;
  }

  predicate SizesKept(was: map<Key, Node>, now: map<Key, Node>, order: seq<Key>)
  {
    forall k :: k in order ==> SizeOf(was, k) == SizeOf(now, k)
  }

  /** Forget a victim that is resident. */
  method EvictResident(policy: LRUPolicy, key: Key, resident: set<Key>) returns (left: set<Key>)
    requires policy.Valid()
    modifies policy
    ensures policy.Valid() && left == resident - {key}
    ensures policy.order == if key in resident then Without(old(policy.order), key) else old(policy.order)
    ensures SizesKept(old(policy.nodes), policy.nodes, policy.order)
  {
    left := resident;
    WithoutMembers(policy.order, key);
    if key in left {
      left := left - {key};
      policy.OnEvict(key);
    }
  }

  lemma SizesKeptOn(was: map<Key, Node>, mid: map<Key, Node>, now: map<Key, Node>, order: seq<Key>, less: seq<Key>)
    requires SizesKept(was, mid, order) && SizesKept(mid, now, less) && forall k :: k in less ==> k in order
    ensures SizesKept(was, now, less)
  {
  }

  /** What the round evicts from the list, key by key. */
  function Evicted(order: seq<Key>, victims: seq<Key>, resident: set<Key>): seq<Key>
  {
    if victims == [] then order
    else
      var n := |victims| - 1;
      var before := Evicted(order, victims[..n], resident);
      if victims[n] in resident then Without(before, victims[n]) else before
  }

  lemma {:induction false} EvictedIsRound(victims: seq<Key>, i: nat, rest: seq<Key>, resident: set<Key>)
    requires i <= |victims| && NoDup(victims + rest)
    ensures Evicted(victims + rest, victims[..i], resident) == Survivors(victims[..i], resident) + (victims[i..] + rest)
    ensures NoDup(Evicted(victims + rest, victims[..i], resident))
  {
    if i == 0 {
      assert victims[0..] == victims;
    } else {
      EvictedIsRound(victims, i - 1, rest, resident);
      var order := Evicted(victims + rest, victims[..i - 1], resident);
      assert victims[..i][..i - 1] == victims[..i - 1];
      DistinctFront(victims, rest);
      NextVictim(victims, i - 1, rest, resident, order);
      WithoutNoDup(order, victims[i - 1]);
    }
  }

  lemma DistinctFront(victims: seq<Key>, rest: seq<Key>)
    requires NoDup(victims + rest)
    ensures Distinct(victims)
  {
    NoDupIsDistinct(victims + rest);
    assert forall i :: 0 <= i < |victims| ==> (victims + rest)[i] == victims[i];
  }

  lemma StillResident(victims: seq<Key>, i: nat, resident: set<Key>)
    requires Distinct(victims) && i < |victims|
    ensures victims[i] in resident - Keys(victims[..i]) <==> victims[i] in resident
    ensures resident - Keys(victims[..i]) - {victims[i]} == resident - Keys(victims[..i + 1])
  {
    assert victims[..i + 1] == victims[..i] + [victims[i]];
  }

  /** One round: every victim that is resident is dropped and then evicted. */
  method EvictRound(policy: LRUPolicy, victims: seq<Key>, resident: set<Key>) returns (left: set<Key>)
    requires policy.Valid() && Distinct(victims)
    modifies policy
    ensures policy.Valid() && policy.order == Evicted(old(policy.order), victims, resident)
    ensures left == resident - Keys(victims)
    ensures SizesKept(old(policy.nodes), policy.nodes, policy.order)
  {
    left := resident;
    for i := 0 to |victims|
      invariant policy.Valid() && policy.order == Evicted(old(policy.order), victims[..i], resident)
      invariant left == resident - Keys(victims[..i])
      invariant SizesKept(old(policy.nodes), policy.nodes, policy.order)
    {
      ghost var mid, order := policy.nodes, policy.order;
      StillResident(victims, i, resident);
      assert victims[..i + 1][..i] == victims[..i];
      WithoutMembers(order, victims[i]);
      left := EvictResident(policy, victims[i], left);
      SizesKeptOn(old(policy.nodes), mid, policy.nodes, order, policy.order);
    }
    assert victims[..|victims|] == victims;
  }

  lemma {:induction false} SurvivorsMembers(victims: seq<Key>, resident: set<Key>)
    ensures forall k :: k in Survivors(victims, resident) <==> k in victims && k !in resident
  {
    if victims != [] {
      var n := |victims| - 1;
      SurvivorsMembers(victims[..n], resident);
      assert victims == victims[..n] + [victims[n]];
    }
  }

  lemma {:induction false} SurvivorsSame(victims: seq<Key>, a: set<Key>, b: set<Key>)
    requires forall k :: k in victims ==> (k in a <==> k in b)
    ensures Survivors(victims, a) == Survivors(victims, b)
  {
    if victims != [] { SurvivorsSame(victims[..|victims| - 1], a, b); }
  }

  /** Of the resident keys, exactly those not listed at the start and those still listed are left. */
  ghost predicate LeftOk(start: seq<Key>, order: seq<Key>, resident: set<Key>, left: set<Key>)
  {
    && (forall k :: k in order ==> k in start)
    && left <= resident && forall k :: k in resident ==> (k in left <==> k !in start || k in order)
  }

  lemma RoundLeft(start: seq<Key>, order: seq<Key>, resident: set<Key>, left: set<Key>, batch: nat)
    requires NoDup(order) && LeftOk(start, order, resident, left)
    ensures var victims := order[..Min(batch, |order|)];
      && Survivors(victims, left) == Survivors(victims, resident)
      && LeftOk(start, Round(order, resident, batch), resident, left - Keys(victims))
      && (left - Keys(victims) == left <==> Stuck(order, resident, batch))
  {
    var m := Min(batch, |order|);
    var victims, rest := order[..m], order[m..];
    assert order == victims + rest;
    NoDupIsDistinct(order);
    assert forall k :: k in victims ==> k !in rest;
    SurvivorsSame(victims, left, resident);
    SurvivorsMembers(victims, resident);
    assert forall i :: 0 <= i < m ==> order[i] == victims[i] && order[i] in victims;
  }

  lemma RoundEvicts(order: seq<Key>, batch: nat, left: set<Key>, resident: set<Key>)
    requires NoDup(order)
    requires var victims := order[..Min(batch, |order|)]; Survivors(victims, left) == Survivors(victims, resident)
    ensures var victims := order[..Min(batch, |order|)];
      Distinct(victims) && Evicted(order, victims, left) == Round(order, resident, batch)
  {
    var m := Min(batch, |order|);
    var victims, rest := order[..m], order[m..];
    assert order == victims + rest;
    DistinctFront(victims, rest);
    EvictedIsRound(victims, m, rest, left);
    assert victims[..m] == victims && victims[m..] + rest == rest;
  }

  lemma OverNow(was: map<Key, Node>, now: map<Key, Node>, order: seq<Key>, memory: nat, count: nat, maxMemory: nat,
                maxObjects: Option<nat>)
    requires SizesKept(was, now, order) && Counted(now, order, memory, count)
    ensures Over(was, order, maxMemory, maxObjects) <==>
      memory > maxMemory || (maxObjects.Some? && count > maxObjects.value)
    ensures Over(was, order, maxMemory, maxObjects) ==> order != []
  {
    TotalFrame(was, now, order);
  }

  /** Where the rounds lead: to the first list within the limits, or to one that is stuck. */
  function Final(nodes: map<Key, Node>, order: seq<Key>, resident: set<Key>, batch: nat, maxMemory: nat,
                 maxObjects: Option<nat>): seq<Key>
    decreases |order|
  {
    RoundShortens(order, resident, batch);
    if !Over(nodes, order, maxMemory, maxObjects) || Stuck(order, resident, batch) then order
    else Final(nodes, Round(order, resident, batch), resident, batch, maxMemory, maxObjects)
  }

  lemma OneRoundMore(nodes: map<Key, Node>, order: seq<Key>, resident: set<Key>, batch: nat, maxMemory: nat,
                     maxObjects: Option<nat>)
    ensures Ends(nodes, order, resident, batch, maxMemory, maxObjects) <==>
      || !Over(nodes, order, maxMemory, maxObjects)
      || Ends(nodes, Round(order, resident, batch), resident, batch, maxMemory, maxObjects)
  {
    var next := Round(order, resident, batch);
    if n: nat :| !Over(nodes, Rounds(order, resident, batch, n), maxMemory, maxObjects) {
      if n > 0 { assert !Over(nodes, Rounds(next, resident, batch, n - 1), maxMemory, maxObjects); }
    }
    if !Over(nodes, order, maxMemory, maxObjects) {
      assert !Over(nodes, Rounds(order, resident, batch, 0), maxMemory, maxObjects);
    }
    if n: nat :| !Over(nodes, Rounds(next, resident, batch, n), maxMemory, maxObjects) {
      assert !Over(nodes, Rounds(order, resident, batch, n + 1), maxMemory, maxObjects);
    }
  }

  /** The rounds come within the limits exactly when the last list is; if it is not, it is the list
      without every resident key older than the `batch`-th key that is not resident, and no further
      round changes it. */
  lemma {:induction false} FinalMeans(nodes: map<Key, Node>, order: seq<Key>, resident: set<Key>, batch: nat,
                                      maxMemory: nat, maxObjects: Option<nat>)
    ensures var last := Final(nodes, order, resident, batch, maxMemory, maxObjects);
      && (Ends(nodes, order, resident, batch, maxMemory, maxObjects) <==> !Over(nodes, last, maxMemory, maxObjects))
      && (Over(nodes, last, maxMemory, maxObjects) ==>
          Stuck(last, resident, batch) && last == Cleared(order, resident, batch) &&
            Round(last, resident, batch) == last)
    decreases |order|
  {
    RoundShortens(order, resident, batch);
    OneRoundMore(nodes, order, resident, batch, maxMemory, maxObjects);
    if Over(nodes, order, maxMemory, maxObjects) {
      if Stuck(order, resident, batch) {
        StuckIsCleared(order, resident, batch);
        StuckNeverEnds(nodes, order, resident, batch, maxMemory, maxObjects);
      } else {
        FinalMeans(nodes, Round(order, resident, batch), resident, batch, maxMemory, maxObjects);
        RoundKeepsCleared(order, resident, batch);
      }
    }
  }

  lemma StuckNeverEnds(nodes: map<Key, Node>, order: seq<Key>, resident: set<Key>, batch: nat, maxMemory: nat,
                       maxObjects: Option<nat>)
    requires Stuck(order, resident, batch) && Over(nodes, order, maxMemory, maxObjects)
    ensures !Ends(nodes, order, resident, batch, maxMemory, maxObjects)
  {
    forall n: nat ensures Over(nodes, Rounds(order, resident, batch, n), maxMemory, maxObjects) {
      StuckForEver(order, resident, batch, n);
    }
  }

  /** One round of the loop. Nothing is dropped exactly when it is stuck. */
  method OneRound(policy: LRUPolicy, batch: nat, victims: seq<Key>, left: set<Key>, ghost resident: set<Key>,
                  ghost start: seq<Key>)
    returns (still: set<Key>)
    requires policy.Valid() && victims == policy.order[..Min(batch, |policy.order|)]
    requires LeftOk(start, policy.order, resident, left)
    modifies policy
    ensures policy.Valid() && policy.order == Round(old(policy.order), resident, batch)
    ensures LeftOk(start, policy.order, resident, still)
    ensures still == left <==> Stuck(old(policy.order), resident, batch)
    ensures SizesKept(old(policy.nodes), policy.nodes, policy.order)
    ensures forall k :: k in policy.order ==> k in old(policy.order)
  {
    RoundLeft(start, policy.order, resident, left, batch);
    RoundEvicts(policy.order, batch, left, resident);
    RoundMembers(policy.order, resident, batch);
    still := EvictRound(policy, victims, left);
  }

  lemma RoundMembers(order: seq<Key>, resident: set<Key>, batch: nat)
    ensures forall k :: k in Round(order, resident, batch) ==> k in order
  {
    var m := Min(batch, |order|);
    SurvivorsMembers(order[..m], resident);
    assert order == order[..m] + order[m..];
  }

  /** The batch loop. It evicts only while over the limits and follows the rounds to their end. A
      round that drops nothing changes nothing, so the loop repeats it for ever: `ended` is then
      false. */
  method RunEviction(policy: LRUPolicy, batch: nat, resident: set<Key>) returns (ended: bool, left: set<Key>)
    requires policy.Valid() && batch > 0
    modifies policy
    ensures policy.Valid()
    ensures policy.order ==
      Final(old(policy.nodes), old(policy.order), resident, batch, policy.maxMemory, policy.maxObjects)
    ensures ended <==> Ends(old(policy.nodes), old(policy.order), resident, batch, policy.maxMemory, policy.maxObjects)
    ensures ended <==> !policy.ShouldEvict()
    ensures LeftOk(old(policy.order), policy.order, resident, left)
    ensures SizesKept(old(policy.nodes), policy.nodes, policy.order)
  {
    left, ended := resident, true;
    ghost var was, start := policy.nodes, policy.order;
    var victims := policy.Victims(batch);
    while ended && victims != []
      invariant policy.Valid() && SizesKept(was, policy.nodes, policy.order)
      invariant Final(was, policy.order, resident, batch, policy.maxMemory, policy.maxObjects) ==
        Final(was, start, resident, batch, policy.maxMemory, policy.maxObjects)
      invariant victims == if policy.ShouldEvict() then policy.order[..Min(batch, |policy.order|)] else []
      invariant LeftOk(start, policy.order, resident, left)
      invariant !ended ==> Stuck(policy.order, resident, batch) && policy.ShouldEvict()
      decreases ended, |policy.order|
    {
      ghost var before, mid := policy.order, policy.nodes;
      OverNow(was, mid, before, policy.currentMemory, policy.currentCount, policy.maxMemory, policy.maxObjects);
      RoundShortens(before, resident, batch);
      var still := OneRound(policy, batch, victims, left, resident, start);
      SizesKeptOn(was, mid, policy.nodes, before, policy.order);
      OverNow(was, policy.nodes, policy.order, policy.currentMemory, policy.currentCount, policy.maxMemory,
              policy.maxObjects);
      ended, left := still != left, still;
      victims := policy.Victims(batch);
    }
    OverNow(was, policy.nodes, policy.order, policy.currentMemory, policy.currentCount, policy.maxMemory,
            policy.maxObjects);
    FinalMeans(was, start, resident, batch, policy.maxMemory, policy.maxObjects);
  }
}
