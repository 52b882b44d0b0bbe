/** How keys that are tracked without a handle pile up in ordinary use: with a limit on the number of
    handles below the batch, opens and patches that all return lead to a table on which the next patch
    does not. */
module LruPileUp {
  import opened Wrappers
  import opened Sequences
  import opened LruPolicy
  import opened LruEviction
  import opened LruResident

  // ---- Handles pile up -------------------------------------------------------------------

  /** No more than `max` handles are kept, a batch takes more than that, and one more than `max` handles
      of this size fit in memory. */
  predicate CountOnly(l: Limits, max: nat, size: nat)
  {
    && l.maxObjects == Some(max) && max + 1 < WORD && max < l.batch
    && (max + 1) * size <= l.maxMemory && (max + 1) * size < WORD
  }

  predicate Small(sizes: map<Key, nat>, order: seq<Key>, size: nat)
  {
    forall k :: k in order && k in sizes ==> sizes[k] <= size
  }

  lemma {:induction false} SmallTotal(nodes: map<Key, Node>, order: seq<Key>, size: nat)
    requires forall k :: k in order ==> SizeOf(nodes, k) <= size
    ensures Total(nodes, order) <= |order| * size
  {
    if order != [] {
      SmallTotal(nodes, order[1..], size);
      assert |order| * size == (|order| - 1) * size + size;
    }
  }

  lemma TimesGrows(a: nat, b: nat, size: nat)
    requires a <= b
    ensures a * size <= b * size
  {
  }

  lemma WithinCount(t: Table, l: Limits, max: nat, size: nat)
    requires CountOnly(l, max, size) && |t.order| <= max && Small(t.sizes, t.order, size)
    ensures !OverLimits(t, l)
  {
    SmallTotal(AsNodes(t.sizes), t.order, size);
    TimesGrows(|t.order|, max + 1, size);
    Unwrapped(Total(AsNodes(t.sizes), t.order), |t.order|);
  }

  lemma OverCount(t: Table, l: Limits, max: nat, size: nat)
    requires CountOnly(l, max, size) && |t.order| == max + 1
    ensures OverLimits(t, l)
  {
  }

  lemma WithinIsSettled(t: Table, l: Limits)
    requires TableOk(t) && !OverLimits(t, l)
    ensures Settles(t, l) && Settled(t, l) == t
  {
    assert !Over(AsNodes(t.sizes), Rounds(t.order, t.handles, l.batch, 0), l.maxMemory, l.maxObjects);
  }

  lemma StuckNeverSettles(t: Table, l: Limits)
    requires OverLimits(t, l) && forall k :: k in t.order ==> k !in t.handles
    ensures !Settles(t, l)
  {
    StuckNeverEnds(AsNodes(t.sizes), t.order, t.handles, l.batch, l.maxMemory, l.maxObjects);
  }

  lemma TrackedNew(t: Table, key: Key, size: nat)
    requires TableOk(t) && key !in t.order
    ensures Tracked(t, key, size).order == t.order + [key] && TableOk(Tracked(t, key, size))
  {
    WithoutAbsent(t.order, key);
    TrackedOk(t, key, size);
  }

  lemma OpenWithin(t: Table, key: Key, size: nat, l: Limits, max: nat)
    requires TableOk(t) && CountOnly(l, max, size) && key !in t.order && |t.order| < max
    requires Small(t.sizes, t.order, size)
    ensures Returns(t, Open(key, size), l)
    ensures var after := Step(t, Open(key, size), l);
      && TableOk(after) && after.order == t.order + [key] && after.handles == t.handles + {key}
      && Small(after.sizes, after.order, size)
  {
    WithoutAbsent(t.order, key);
    TrackedOk(t.(handles := t.handles + {key}), key, size);
    WithinCount(Kept(t, key, size), l, max, size);
    WithinIsSettled(Kept(t, key, size), l);
  }

  /** Opening one object too many drops every handle, its own included. */
  lemma OpenOverfull(t: Table, key: Key, n: nat, l: Limits, max: nat, size: nat)
    requires TableOk(t) && CountOnly(l, max, size) && key !in t.order && |t.order| == max
    requires Small(t.sizes, t.order, size)
    ensures Settles(Kept(t, key, n), l)
    ensures var after := Opened(t, key, n, l);
      && TableOk(after) && after.order == Survivors(t.order, t.handles) && after.handles == {}
      && Small(after.sizes, after.order, size)
  {
    var kept := Kept(t, key, n);
    var nodes, next := AsNodes(kept.sizes), Survivors(t.order, t.handles);
    WithoutAbsent(t.order, key);
    OpenedOk(t, key, n, l);
    assert kept.order == t.order + [key];
    OverCount(kept, l, max, size);
    OverfullRound(t.order, t.handles, key, l.batch);
    SurvivorsMembers(t.order, t.handles);
    WithinCount(Table(kept.sizes, next, {}), l, max, size);
    OneRoundMore(nodes, kept.order, kept.handles, l.batch, l.maxMemory, l.maxObjects);
    assert !Over(nodes, Rounds(next, kept.handles, l.batch, 0), l.maxMemory, l.maxObjects);
    assert Final(nodes, next, kept.handles, l.batch, l.maxMemory, l.maxObjects) == next;
    assert LastOrder(kept, l) == next;
  }

  lemma OverfullRound(order: seq<Key>, handles: set<Key>, key: Key, batch: nat)
    requires key !in order && |order| < batch
    ensures Round(order + [key], handles + {key}, batch) == Survivors(order, handles)
    ensures !Stuck(order + [key], handles + {key}, batch) && |Survivors(order, handles)| <= |order|
  {
    var all := order + [key];
    assert all[|order|] == key && all[..|all|] == all && all[..|order|] == order;
    SurvivorsSame(order, handles, handles + {key});
    SurvivorsLength(order, handles);
    assert Min(batch, |all|) == |all|;
  }

  /** On a full table, the patch of a new key, of any size, returns only if some handle is left. One of
      small size then does return; it leaves one more key tracked without a handle, and no handle. */
  lemma PatchOverfull(t: Table, key: Key, n: nat, grown: nat, l: Limits, max: nat, size: nat)
    requires TableOk(t) && CountOnly(l, max, size) && key !in t.order && |t.order| == max
    requires Small(t.sizes, t.order, size)
    ensures Returns(t, Patch(key, n, grown), l) ==> t.handles != {}
    ensures t.handles != {} && grown <= size ==>
      var after := Step(t, Patch(key, n, grown), l);
      && Returns(t, Patch(key, n, grown), l)
      && TableOk(after) && after.order == Survivors(t.order, t.handles) + [key] && after.handles == {}
      && Small(after.sizes, after.order, size)
  {
    var mid := Opened(t, key, n, l);
    OpenOverfull(t, key, n, l, max, size);
    SurvivorsMembers(t.order, t.handles);
    TrackedNew(mid, key, grown);
    SurvivorsLength(t.order, t.handles);
    var again := Tracked(mid, key, grown);
    if t.handles == {} {
      OverCount(again, l, max, size);
      StuckNeverSettles(again, l);
    } else if grown <= size {
      var k :| k in t.handles;
      var i :| 0 <= i < |t.order| && t.order[i] == k;
      WithinCount(again, l, max, size);
      WithinIsSettled(again, l);
    }
  }

  /** Every one of the calls returns. */
  ghost predicate AllReturn(calls: seq<Call>, l: Limits)
  {
    calls == []
    || (AllReturn(calls[..|calls| - 1], l) && Returns(After(EMPTY, calls[..|calls| - 1], l), calls[|calls| - 1], l))
  }

  lemma OneCallMore(calls: seq<Call>, c: Call, l: Limits)
    requires AllReturn(calls, l) && Returns(After(EMPTY, calls, l), c, l)
    ensures AllReturn(calls + [c], l) && After(EMPTY, calls + [c], l) == Step(After(EMPTY, calls, l), c, l)
  {
    assert (calls + [c])[..|calls|] == calls;
  }

  /** The calls all return and lead to this list and these handles, of small size. */
  ghost predicate Leads(calls: seq<Call>, l: Limits, order: seq<Key>, handles: set<Key>, size: nat)
  {
    var t := After(EMPTY, calls, l);
    AllReturn(calls, l) && TableOk(t) && t.order == order && t.handles == handles && Small(t.sizes, order, size)
  }

  lemma OpenMore(calls: seq<Call>, order: seq<Key>, handles: set<Key>, key: Key, size: nat, l: Limits, max: nat)
    requires Leads(calls, l, order, handles, size) && CountOnly(l, max, size) && key !in order && |order| < max
    ensures Leads(calls + [Open(key, size)], l, order + [key], handles + {key}, size)
  {
    OpenWithin(After(EMPTY, calls, l), key, size, l, max);
    OneCallMore(calls, Open(key, size), l);
  }

  lemma PatchMore(calls: seq<Call>, order: seq<Key>, handles: set<Key>, key: Key, size: nat, l: Limits, max: nat)
    requires Leads(calls, l, order, handles, size) && CountOnly(l, max, size) && key !in order
    requires |order| == max && handles != {}
    ensures Leads(calls + [Patch(key, size, size)], l, Survivors(order, handles) + [key], {}, size)
  {
    PatchOverfull(After(EMPTY, calls, l), key, size, size, l, max, size);
    OneCallMore(calls, Patch(key, size, size), l);
  }

  /** Open the first `n` of some new keys. */
  lemma {:induction false} Fill(calls: seq<Call>, order: seq<Key>, others: seq<Key>, n: nat, size: nat, l: Limits,
                                max: nat)
    returns (longer: seq<Call>)
    requires Leads(calls, l, order, {}, size) && CountOnly(l, max, size) && n <= |others|
    requires Distinct(order + others) && |order| + n <= max
    ensures Leads(longer, l, order + others[..n], Keys(others[..n]), size)
  {
    if n == 0 {
      longer := calls;
      assert order + others[..0] == order;
    } else {
      var key := others[n - 1];
      var before := Fill(calls, order, others, n - 1, size, l, max);
      NotYetListed(order, others, n - 1);
      OpenMore(before, order + others[..n - 1], Keys(others[..n - 1]), key, size, l, max);
      longer := before + [Open(key, size)];
      OneKeyMore(order, others, n - 1);
    }
  }

  lemma OneKeyMore(order: seq<Key>, others: seq<Key>, n: nat)
    requires n < |others|
    ensures order + others[..n + 1] == order + others[..n] + [others[n]]
    ensures Keys(others[..n + 1]) == Keys(others[..n]) + {others[n]}
  {
    assert others[..n + 1] == others[..n] + [others[n]];
  }

  lemma NotYetListed(order: seq<Key>, others: seq<Key>, n: nat)
    requires Distinct(order + others) && n < |others|
    ensures others[n] !in order + others[..n]
  {
    var all := order + others;
    assert all[|order| + n] == others[n] && order + others[..n] == all[..|order| + n];
  }

  lemma {:induction false} SurvivorsOfBoth(front: seq<Key>, back: seq<Key>, gone: set<Key>)
    requires (forall k :: k in front ==> k !in gone) && (forall k :: k in back ==> k in gone)
    ensures Survivors(front + back, gone) == front
  {
    var all := front + back;
    if back == [] {
      assert all == front;
      SurvivorsLength(front, gone);
    } else {
      var n := |back| - 1;
      SurvivorsOfBoth(front, back[..n], gone);
      assert all[..|all| - 1] == front + back[..n];
    }
  }

  lemma PileOne(before: seq<Call>, piled: seq<Key>, key: Key, others: seq<Key>, size: nat, l: Limits, max: nat)
    returns (calls: seq<Call>)
    requires Leads(before, l, piled, {}, size) && CountOnly(l, max, size) && others != [] && |piled| + |others| == max
    requires Distinct(piled + others) && key !in piled + others
    ensures Leads(calls, l, piled + [key], {}, size)
  {
    var filled := Fill(before, piled, others, |others|, size, l, max);
    assert others[..|others|] == others;
    assert others[0] in Keys(others);
    forall k | k in piled ensures k !in Keys(others) { ApartFromOthers(piled, others, k); }
    PatchMore(filled, piled + others, Keys(others), key, size, l, max);
    SurvivorsOfBoth(piled, others, Keys(others));
    calls := filled + [Patch(key, size, size)];
  }

  lemma ApartFromOthers(piled: seq<Key>, others: seq<Key>, k: Key)
    requires Distinct(piled + others) && k in piled
    ensures k !in others
  {
    var all := piled + others;
    assert forall i :: 0 <= i < |piled| ==> all[i] == piled[i];
    assert forall j :: 0 <= j < |others| ==> all[|piled| + j] == others[j];
  }

  /** For any `max + 1` keys there are opens and patches, every one of which returns, after which the
      first `g` of the keys are tracked and none has a handle. */
  lemma {:induction false} PileUp(keys: seq<Key>, g: nat, size: nat, l: Limits, max: nat) returns (calls: seq<Call>)
    requires Distinct(keys) && |keys| == max + 1 && CountOnly(l, max, size) && g <= max
    ensures Leads(calls, l, keys[..g], {}, size)
    decreases g
  {
    if g == 0 {
      calls := [];
    } else {
      var before := PileUp(keys, g - 1, size, l, max);
      TakenOut(keys, g - 1);
      calls := PileNext(before, keys, g - 1, size, l, max);
    }
  }

  lemma PileNext(before: seq<Call>, keys: seq<Key>, g: nat, size: nat, l: Limits, max: nat) returns (calls: seq<Call>)
    requires |keys| == max + 1 && CountOnly(l, max, size) && g < max && Leads(before, l, keys[..g], {}, size)
    requires Distinct(keys[..g] + keys[g + 1..]) && keys[g] !in keys[..g] + keys[g + 1..]
    ensures Leads(calls, l, keys[..g + 1], {}, size)
  {
    TakeOneMore(keys, g);
    calls := PileOne(before, keys[..g], keys[g], keys[g + 1..], size, l, max);
  }

  lemma TakeOneMore(keys: seq<Key>, g: nat)
    requires g < |keys|
    ensures keys[..g + 1] == keys[..g] + [keys[g]]
  {
  }

  lemma TakenOut(keys: seq<Key>, i: nat)
    requires Distinct(keys) && i < |keys|
    ensures Distinct(keys[..i] + keys[i + 1..]) && keys[i] !in keys[..i] + keys[i + 1..]
  {
    var rest := keys[..i] + keys[i + 1..];
    assert forall j :: 0 <= j < |rest| ==> rest[j] == keys[if j < i then j else j + 1];
  }

  /** However many handles may be kept, as long as a batch takes more: there are opens and patches, every
      one of which returns, after which no patch of another key returns. */
  lemma HangsInTheEnd(keys: seq<Key>, size: nat, l: Limits, max: nat) returns (calls: seq<Call>)
    requires Distinct(keys) && |keys| == max + 1 && CountOnly(l, max, size)
    ensures AllReturn(calls, l)
    ensures forall key, n, grown :: key !in keys[..max] ==> !Returns(After(EMPTY, calls, l), Patch(key, n, grown), l)
  {
    calls := PileUp(keys, max, size, l, max);
    var t := After(EMPTY, calls, l);
    forall key, n: nat, grown: nat | key !in keys[..max] ensures !Returns(t, Patch(key, n, grown), l) {
      PatchOverfull(t, key, n, grown, l, max, size);
    }
  }
}
