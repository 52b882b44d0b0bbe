/** The open handles of a storage engine under an eviction policy: opening an object keeps its
    handle, patching goes through the handle and then accounts for it again, deleting drops it. The
    calls come one after another; a call whose eviction never ends does not return. */
module LruResident {
  import opened Wrappers
  import opened Sequences
  import opened LruPolicy
  import opened LruEviction

  // ---- The table of handles --------------------------------------------------------------

  datatype Limits = Limits(batch: nat, maxMemory: nat, maxObjects: Option<nat>)

  /** The tracked keys with their sizes, oldest first, and the keys whose handle is kept. */
  datatype Table = Table(sizes: map<Key, nat>, order: seq<Key>, handles: set<Key>)

  const EMPTY: Table := Table(map[], [], {})

  /** Handles are tracked, and every tracked key has one size. */
  ghost predicate TableOk(t: Table)
  {
    && NoDup(t.order) && (forall k :: k in t.sizes <==> k in t.order)
    && forall k :: k in t.handles ==> k in t.order
  }

  function AsNodes(sizes: map<Key, nat>): map<Key, Node> { map k | k in sizes :: Node(sizes[k], None, None) }

  predicate OverLimits(t: Table, l: Limits) { Over(AsNodes(t.sizes), t.order, l.maxMemory, l.maxObjects) }

  /** Eviction comes to an end. */
  ghost predicate Settles(t: Table, l: Limits)
  {
    Ends(AsNodes(t.sizes), t.order, t.handles, l.batch, l.maxMemory, l.maxObjects)
  }

  function LastOrder(t: Table, l: Limits): seq<Key>
  {
    Final(AsNodes(t.sizes), t.order, t.handles, l.batch, l.maxMemory, l.maxObjects)
  }

  /** Only these keys are left. */
  function Reduced(t: Table, order: seq<Key>): Table
  {
    Table(map k | k in t.sizes && k in order :: t.sizes[k], order, set k | k in t.handles && k in order)
  }

  function Settled(t: Table, l: Limits): Table { Reduced(t, LastOrder(t, l)) }

  function Tracked(t: Table, key: Key, size: nat): Table
  {
    t.(sizes := t.sizes[key := size], order := Added(t.order, key))
  }

  /** The object is opened: its handle is kept and accounted for, before eviction. */
  function Kept(t: Table, key: Key, size: nat): Table { Tracked(t.(handles := t.handles + {key}), key, size) }

  function Opened(t: Table, key: Key, size: nat, l: Limits): Table
  {
    if key in t.handles then t else Settled(Kept(t, key, size), l)
  }

  function Dropped(t: Table, keys: set<Key>): Table { Reduced(t, Remaining(t.order, t.handles * keys)) }

  function Remaining(order: seq<Key>, gone: set<Key>): seq<Key> { Survivors(order, gone) }

  // ---- Calls -----------------------------------------------------------------------------

  /** `size` is what an opened handle takes, `grown` what it takes once the part is appended. A patch
      whose append fails is an opening. `covered` are the keys of a delete. */
  datatype Call =
    | Open(key: Key, size: nat)
    | Patch(key: Key, size: nat, grown: nat)
    | Delete(covered: set<Key>)
    | Touch(key: Key)

  ghost predicate Returns(t: Table, c: Call, l: Limits)
  {
    match c
    case Open(key, size) => key in t.handles || Settles(Kept(t, key, size), l)
    case Patch(key, size, grown) =>
      && (key in t.handles || Settles(Kept(t, key, size), l))
      && Settles(Tracked(Opened(t, key, size, l), key, grown), l)
    case _ => true
  }

  function Step(t: Table, c: Call, l: Limits): Table
  {
    match c
    case Open(key, size) => Opened(t, key, size, l)
    case Patch(key, size, grown) => Settled(Tracked(Opened(t, key, size, l), key, grown), l)
    case Delete(covered) => Dropped(t, covered)
    case Touch(key) => t.(order := Touched(t.order, key))
  }

  function After(t: Table, calls: seq<Call>, l: Limits): Table
  {
    if calls == [] then t else Step(After(t, calls[..|calls| - 1], l), calls[|calls| - 1], l)
  }

  // ---- Eviction and the handles ----------------------------------------------------------

  /** Eviction drops keys with a handle only. */
  lemma {:induction false} FinalMembers(nodes: map<Key, Node>, order: seq<Key>, handles: set<Key>, l: Limits)
    requires NoDup(order)
    ensures var last := Final(nodes, order, handles, l.batch, l.maxMemory, l.maxObjects);
      && NoDup(last) && (forall k :: k in last ==> k in order)
      && (forall k :: k in order && k !in handles ==> k in last)
    decreases |order|
  {
    RoundShortens(order, handles, l.batch);
    if Over(nodes, order, l.maxMemory, l.maxObjects) && !Stuck(order, handles, l.batch) {
      RoundFacts(order, handles, l.batch);
      FinalMembers(nodes, Round(order, handles, l.batch), handles, l);
    }
  }

  lemma RoundFacts(order: seq<Key>, handles: set<Key>, batch: nat)
    requires NoDup(order)
    ensures var next := Round(order, handles, batch);
      && NoDup(next) && (forall k :: k in next ==> k in order)
      && (forall k :: k in order && k !in handles ==> k in next)
  {
    var m := Min(batch, |order|);
    RoundMembers(order, handles, batch);
    SurvivorsMembers(order[..m], handles);
    assert order == order[..m] + order[m..];
    EvictedIsRound(order[..m], m, order[m..], handles);
    assert order[..m][..m] == order[..m] && order[..m][m..] + order[m..] == order[m..];
  }

  lemma SettledOk(t: Table, l: Limits)
    requires TableOk(t)
    ensures TableOk(Settled(t, l)) && Strays(Settled(t, l)) == Strays(t)
  {
    FinalMembers(AsNodes(t.sizes), t.order, t.handles, l);
  }

  lemma TrackedOk(t: Table, key: Key, size: nat)
    requires NoDup(t.order) && (forall k :: k in t.sizes <==> k in t.order)
    requires forall k :: k in t.handles ==> k in t.order || k == key
    ensures TableOk(Tracked(t, key, size))
    ensures forall k :: k in Tracked(t, key, size).order <==> k in t.order || k == key
  {
    AddedFacts(t.order, key);
  }

  /** The keys that are tracked without a handle. */
  function Strays(t: Table): set<Key> { set k | k in t.order && k !in t.handles }

  lemma OpenedOk(t: Table, key: Key, size: nat, l: Limits)
    requires TableOk(t)
    ensures TableOk(Opened(t, key, size, l))
    ensures Strays(Opened(t, key, size, l)) == Strays(t) - {key}
  {
    if key !in t.handles {
      TrackedOk(t.(handles := t.handles + {key}), key, size);
      SettledOk(Kept(t, key, size), l);
      assert Strays(Kept(t, key, size)) == Strays(t) - {key};
    }
  }

  lemma SurvivorsNoDup(order: seq<Key>, gone: set<Key>)
    requires NoDup(order)
    ensures NoDup(Survivors(order, gone))
  {
    assert order + [] == order && order[..|order|] == order;
    EvictedIsRound(order, |order|, [], gone);
    assert Survivors(order, gone) + (order[|order|..] + []) == Survivors(order, gone);
  }

  lemma DroppedOk(t: Table, keys: set<Key>)
    requires TableOk(t)
    ensures TableOk(Dropped(t, keys)) && Strays(Dropped(t, keys)) == Strays(t)
  {
    SurvivorsNoDup(t.order, t.handles * keys);
    SurvivorsMembers(t.order, t.handles * keys);
  }

  lemma TouchedOk(t: Table, key: Key)
    requires TableOk(t)
    ensures TableOk(t.(order := Touched(t.order, key))) && Strays(t.(order := Touched(t.order, key))) == Strays(t)
  {
    if key in t.order { AddedFacts(t.order, key); }
  }

  // ---- What a delete and a touch leave ---------------------------------------------------

  /** `a` stands before `b`. */
  ghost predicate Precedes(order: seq<Key>, a: Key, b: Key)
  {
    exists i, j :: 0 <= i < j < |order| && order[i] == a && order[j] == b
  }

  /** The keys that were listed before stand as they stood. */
  ghost predicate SameOrder(before: seq<Key>, after: seq<Key>)
  {
    forall i, j :: 0 <= i < j < |after| ==> Precedes(before, after[i], after[j])
  }

  predicate SameSizesIn(t: Table, u: Table)
  {
    forall k :: k in u.order ==> k in t.sizes && k in u.sizes && u.sizes[k] == t.sizes[k]
  }

  /** The covered handles are dropped, their keys are no longer tracked, and nothing else changes. */
  ghost predicate DropsExactly(t: Table, u: Table, covered: set<Key>)
  {
    && u.handles == t.handles - covered
    && (forall k :: k in u.order <==> k in t.order && !(k in t.handles && k in covered))
    && SameOrder(t.order, u.order) && SameSizesIn(t, u)
  }

  /** A tracked key is now last; the others stand as they stood, and nothing else changes. */
  ghost predicate TouchesExactly(t: Table, u: Table, key: Key)
  {
    && u.handles == t.handles && u.sizes == t.sizes && |u.order| == |t.order|
    && (forall k :: k in u.order <==> k in t.order)
    && if key !in t.order then u.order == t.order
       else u.order[|u.order| - 1] == key && SameOrder(t.order, u.order[..|u.order| - 1])
  }

  lemma {:induction false} SurvivorsInOrder(order: seq<Key>, gone: set<Key>)
    ensures SameOrder(order, Survivors(order, gone))
  {
    if order != [] {
      var n := |order| - 1;
      var less := Survivors(order[..n], gone);
      var now := Survivors(order, gone);
      SurvivorsInOrder(order[..n], gone);
      SurvivorsMembers(order[..n], gone);
      forall i, j | 0 <= i < j < |now| ensures Precedes(order, now[i], now[j]) {
        if j < |less| { LongerPrecedes(order, n, now[i], now[j]); } else { MemberPrecedes(order, n, now[i]); }
      }
    }
  }

  lemma LongerPrecedes(order: seq<Key>, n: nat, a: Key, b: Key)
    requires n <= |order| && Precedes(order[..n], a, b)
    ensures Precedes(order, a, b)
  {
    var i, j :| 0 <= i < j < n && order[..n][i] == a && order[..n][j] == b;
    assert order[i] == a && order[j] == b;
  }

  lemma MemberPrecedes(order: seq<Key>, n: nat, a: Key)
    requires n < |order| && a in order[..n]
    ensures Precedes(order, a, order[n])
  {
    var i :| 0 <= i < n && order[..n][i] == a;
    assert order[i] == a;
  }

  lemma DroppedExactly(t: Table, covered: set<Key>)
    requires TableOk(t)
    ensures DropsExactly(t, Dropped(t, covered), covered)
  {
    SurvivorsMembers(t.order, t.handles * covered);
    SurvivorsInOrder(t.order, t.handles * covered);
  }

  lemma TouchedExactly(t: Table, key: Key)
    requires TableOk(t)
    ensures TouchesExactly(t, t.(order := Touched(t.order, key)), key)
  {
    if key in t.order {
      AddedFacts(t.order, key);
      var u := Touched(t.order, key);
      assert u[..|u| - 1] == Without(t.order, key);
      SurvivorsInOrder(t.order, {key});
      SurvivorsOfNone(t.order);
      WithoutSurvivors(t.order, {}, key);
      assert {} + {key} == {key};
    }
  }

  // ---- Tracked without a handle ----------------------------------------------------------

  /** Opening the object evicts its own handle again. */
  predicate LosesOwn(t: Table, key: Key, size: nat, l: Limits) { key !in Opened(t, key, size, l).handles }

  lemma PatchedOk(t: Table, key: Key, size: nat, grown: nat, l: Limits)
    requires TableOk(t)
    ensures var after := Settled(Tracked(Opened(t, key, size, l), key, grown), l);
      && TableOk(after)
      && Strays(after) == if LosesOwn(t, key, size, l) then Strays(t) + {key} else Strays(t) - {key}
  {
    var mid := Opened(t, key, size, l);
    OpenedOk(t, key, size, l);
    RetrackedStrays(mid, key, grown);
    SettledOk(Tracked(mid, key, grown), l);
  }

  lemma RetrackedStrays(t: Table, key: Key, size: nat)
    requires TableOk(t)
    ensures TableOk(Tracked(t, key, size))
    ensures Strays(Tracked(t, key, size)) == if key in t.handles then Strays(t) else Strays(t) + {key}
  {
    TrackedOk(t, key, size);
  }

  /** What one call does to the keys that are tracked without a handle. */
  lemma StepStrays(t: Table, c: Call, l: Limits)
    requires TableOk(t)
    ensures TableOk(Step(t, c, l))
    ensures Strays(Step(t, c, l)) ==
      match c
      case Open(key, _) => Strays(t) - {key}
      case Patch(key, size, _) => if LosesOwn(t, key, size, l) then Strays(t) + {key} else Strays(t) - {key}
      case _ => Strays(t)
  {
    match c
    case Open(key, size) => OpenedOk(t, key, size, l);
    case Patch(key, size, grown) => PatchedOk(t, key, size, grown, l);
    case Delete(covered) => DroppedOk(t, covered);
    case Touch(key) => TouchedOk(t, key);
  }

  /** The last call that opened or patched the key was a patch that lost its own handle. */
  predicate LostByPatch(calls: seq<Call>, key: Key, l: Limits)
  {
    calls != []
    && var before, c := calls[..|calls| - 1], calls[|calls| - 1];
    if c.Patch? && c.key == key then LosesOwn(After(EMPTY, before, l), key, c.size, l)
    else !(c.Open? && c.key == key) && LostByPatch(before, key, l)
  }

  /** Over every run of calls from an empty table: a key is tracked without a handle exactly when the
      last call that opened or patched it was a patch whose own eviction dropped the handle. */
  lemma {:induction false} StraysExactly(calls: seq<Call>, key: Key, l: Limits)
    ensures TableOk(After(EMPTY, calls, l))
    ensures key in Strays(After(EMPTY, calls, l)) <==> LostByPatch(calls, key, l)
  {
    if calls != [] {
      var before, c := calls[..|calls| - 1], calls[|calls| - 1];
      StraysExactly(before, key, l);
      StepStrays(After(EMPTY, before, l), c, l);
    }
  }

  // ---- When a patch loses its own handle -------------------------------------------------

  /** Eviction takes the oldest keys first: when the newest key goes, every handle has gone. */
  lemma {:induction false} NewestGoesLast(nodes: map<Key, Node>, order: seq<Key>, handles: set<Key>, l: Limits)
    requires NoDup(order) && order != []
    ensures var last := Final(nodes, order, handles, l.batch, l.maxMemory, l.maxObjects);
      order[|order| - 1] in last || forall k :: k in last ==> k !in handles
    decreases |order|
  {
    var m := Min(l.batch, |order|);
    RoundShortens(order, handles, l.batch);
    if Over(nodes, order, l.maxMemory, l.maxObjects) && !Stuck(order, handles, l.batch) {
      RoundFacts(order, handles, l.batch);
      if m < |order| {
        NewestGoesLast(nodes, Round(order, handles, l.batch), handles, l);
      } else {
        assert order[..m] == order;
        SurvivorsMembers(order, handles);
        FinalMembers(nodes, Round(order, handles, l.batch), handles, l);
      }
    }
  }

  lemma NewestStays(nodes: map<Key, Node>, order: seq<Key>, handles: set<Key>, l: Limits)
    requires NoDup(order) && order != [] && forall k :: k in order ==> k in handles
    ensures var last := Final(nodes, order, handles, l.batch, l.maxMemory, l.maxObjects);
      last == [] <==> order[|order| - 1] !in last
  {
    var last := Final(nodes, order, handles, l.batch, l.maxMemory, l.maxObjects);
    NewestGoesLast(nodes, order, handles, l);
    FinalMembers(nodes, order, handles, l);
    if last != [] { assert last[0] in last; }
  }

  /** Opening an object loses its own handle exactly when it leaves no handle at all. */
  lemma LosesAll(t: Table, key: Key, size: nat, l: Limits)
    requires TableOk(t)
    ensures LosesOwn(t, key, size, l) <==> Opened(t, key, size, l).handles == {}
  {
    if key !in t.handles {
      var kept := Kept(t, key, size);
      TrackedOk(t.(handles := t.handles + {key}), key, size);
      NewestGoesLast(AsNodes(kept.sizes), kept.order, kept.handles, l);
    }
  }

  /** How many of `n` keys the last batch takes. */
  function LastBatch(n: nat, batch: nat): (last: nat)
    requires batch > 0
    ensures last <= n
  {
    if n <= batch then n else LastBatch(n - batch, batch)
  }

  function Newest(order: seq<Key>, batch: nat): seq<Key>
    requires batch > 0
  {
    order[|order| - LastBatch(|order|, batch)..]
  }

  lemma {:induction false} NewestIsLess(nodes: map<Key, Node>, order: seq<Key>, batch: nat)
    requires batch > 0
    ensures Total(nodes, Newest(order, batch)) <= Total(nodes, order) && |Newest(order, batch)| <= |order|
  {
    var n := |order| - LastBatch(|order|, batch);
    assert order[..n] + order[n..] == order;
    TotalConcat(nodes, order[..n], order[n..]);
  }

  lemma {:induction false} AllSurviveNone(order: seq<Key>, handles: set<Key>)
    requires forall k :: k in order ==> k in handles
    ensures Survivors(order, handles) == []
  {
    if order != [] { AllSurviveNone(order[..|order| - 1], handles); }
  }

  lemma DropsBatch(nodes: map<Key, Node>, order: seq<Key>, handles: set<Key>, batch: nat)
    requires order != [] && batch > 0 && forall k :: k in order ==> k in handles
    ensures !Stuck(order, handles, batch)
    ensures var next := order[Min(batch, |order|)..];
      Round(order, handles, batch) == next && Total(nodes, next) <= Total(nodes, order) && |next| < |order|
  {
    var m := Min(batch, |order|);
    assert order[0] in handles;
    AllSurviveNone(order[..m], handles);
    assert order[..m] + order[m..] == order;
    TotalConcat(nodes, order[..m], order[m..]);
  }

  lemma NewestOfRest(order: seq<Key>, batch: nat)
    requires 0 < batch < |order|
    ensures Newest(order[batch..], batch) == Newest(order, batch)
  {
  }

  /** With a handle for every key, eviction drops batch after batch. It drops all of them exactly when
      the keys of the last batch alone are over the limits. */
  lemma {:induction false} AllGoExactly(nodes: map<Key, Node>, order: seq<Key>, handles: set<Key>, l: Limits)
    requires order != [] && l.batch > 0 && Exact(nodes, order) && forall k :: k in order ==> k in handles
    ensures Final(nodes, order, handles, l.batch, l.maxMemory, l.maxObjects) == [] <==>
      Over(nodes, Newest(order, l.batch), l.maxMemory, l.maxObjects)
    decreases |order|
  {
    var m := Min(l.batch, |order|);
    var next := order[m..];
    NewestIsLess(nodes, order, l.batch);
    if !Over(nodes, order, l.maxMemory, l.maxObjects) {
      LessIsWithin(nodes, order, Newest(order, l.batch), l.maxMemory, l.maxObjects);
    } else {
      DropsBatch(nodes, order, handles, l.batch);
      if next != [] {
        AllGoExactly(nodes, next, handles, l);
        NewestOfRest(order, l.batch);
      }
    }
  }

  /** With a handle for every tracked key, opening one more object loses its own handle exactly when
      the newest keys, as many as the last batch takes, are over the limits by themselves. */
  lemma LosesOwnExactly(t: Table, key: Key, size: nat, l: Limits)
    requires TableOk(t) && Strays(t) == {} && key !in t.handles && l.batch > 0
    requires var kept := Kept(t, key, size); Exact(AsNodes(kept.sizes), kept.order)
    ensures var kept := Kept(t, key, size);
      LosesOwn(t, key, size, l) <==> Over(AsNodes(kept.sizes), Newest(kept.order, l.batch), l.maxMemory, l.maxObjects)
  {
    var kept := Kept(t, key, size);
    TrackedOk(t.(handles := t.handles + {key}), key, size);
    forall k | k in kept.order ensures k in kept.handles { assert k == key || k !in Strays(t); }
    AllGoExactly(AsNodes(kept.sizes), kept.order, kept.handles, l);
    NewestStays(AsNodes(kept.sizes), kept.order, kept.handles, l);
  }

  // ---- Which calls return ----------------------------------------------------------------

  /** With a handle for every tracked key, eviction ends. */
  lemma NoStrayEnds(t: Table, l: Limits)
    requires TableOk(t) && Strays(t) == {} && l.batch > 0
    ensures Settles(t, l)
  {
    var nodes, last := AsNodes(t.sizes), LastOrder(t, l);
    FinalMeans(nodes, t.order, t.handles, l.batch, l.maxMemory, l.maxObjects);
    FinalMembers(nodes, t.order, t.handles, l);
    if last != [] { assert last[0] in t.order && last[0] !in Strays(t); }
  }

  /** After every run in which no tracked key lost its handle, every call returns, unless it is a patch
      that loses its own handle. */
  lemma ReturnsUnlessLost(calls: seq<Call>, c: Call, l: Limits)
    requires l.batch > 0 && forall key :: !LostByPatch(calls, key, l)
    requires c.Patch? ==> !LosesOwn(After(EMPTY, calls, l), c.key, c.size, l)
    ensures Returns(After(EMPTY, calls, l), c, l)
  {
    var t := After(EMPTY, calls, l);
    StraysExactly(calls, "", l);
    assert Strays(t) == {} by {
      forall key ensures key !in Strays(t) { StraysExactly(calls, key, l); }
    }
    match c
    case Open(key, size) => OpenReturns(t, key, size, l);
    case Patch(key, size, grown) =>
      OpenReturns(t, key, size, l);
      PatchReturns(t, key, size, grown, l);
    case _ =>
  }

  lemma OpenReturns(t: Table, key: Key, size: nat, l: Limits)
    requires TableOk(t) && Strays(t) == {} && l.batch > 0
    ensures key in t.handles || Settles(Kept(t, key, size), l)
  {
    if key !in t.handles {
      TrackedOk(t.(handles := t.handles + {key}), key, size);
      forall k ensures k !in Strays(Kept(t, key, size)) { assert k !in Strays(t); }
      assert Strays(Kept(t, key, size)) == {};
      NoStrayEnds(Kept(t, key, size), l);
    }
  }

  lemma PatchReturns(t: Table, key: Key, size: nat, grown: nat, l: Limits)
    requires TableOk(t) && Strays(t) == {} && !LosesOwn(t, key, size, l) && l.batch > 0
    ensures Settles(Tracked(Opened(t, key, size, l), key, grown), l)
  {
    OpenedOk(t, key, size, l);
    RetrackedStrays(Opened(t, key, size, l), key, grown);
    NoStrayEnds(Tracked(Opened(t, key, size, l), key, grown), l);
  }

  /** A key alone is over the limits. */
  predicate AloneOver(size: nat, l: Limits) { size % WORD > l.maxMemory || l.maxObjects == Some(0) }

  lemma OneKeyOver(key: Key, size: nat, l: Limits)
    ensures Over(AsNodes(map[key := size]), [key], l.maxMemory, l.maxObjects) <==> AloneOver(size, l)
  {
    var nodes := AsNodes(map[key := size]);
    assert SizeOf(nodes, key) == size;
    assert Total(nodes, [key]) == SizeOf(nodes, key) + Total(nodes, []);
  }

  /** A patch on an empty table returns exactly when the key alone is within the limits, before or after
      it has grown. */
  lemma FirstPatchReturns(key: Key, size: nat, grown: nat, l: Limits)
    requires l.batch > 0
    ensures Returns(EMPTY, Open(key, size), l)
    ensures Returns(EMPTY, Patch(key, size, grown), l) <==> !AloneOver(size, l) || !AloneOver(grown, l)
    ensures AloneOver(size, l) ==> Step(EMPTY, Patch(key, size, grown), l) == Table(map[key := grown], [key], {})
  {
    var kept := Kept(EMPTY, key, size);
    OneKey(key, size, {key}, l);
    assert kept == Table(map[key := size], [key], {key});
    var mid := Opened(EMPTY, key, size, l);
    assert mid == if AloneOver(size, l) then EMPTY else kept;
    OneKey(key, grown, mid.handles, l);
    assert Without([key], key) == Without([key][1..], key) == [];
    assert map[key := size][key := grown] == map[key := grown];
    assert Tracked(mid, key, grown) == Table(map[key := grown], [key], mid.handles);
  }

  /** Eviction from a table of one key. */
  lemma OneKey(key: Key, size: nat, handles: set<Key>, l: Limits)
    requires l.batch > 0
    ensures var t := Table(map[key := size], [key], handles);
      && (Settles(t, l) <==> key in handles || !AloneOver(size, l))
      && LastOrder(t, l) == if key in handles && AloneOver(size, l) then [] else [key]
  {
    var t := Table(map[key := size], [key], handles);
    var nodes := AsNodes(t.sizes);
    OneKeyOver(key, size, l);
    FinalMeans(nodes, t.order, handles, l.batch, l.maxMemory, l.maxObjects);
    assert [key][..1] == [key] && [key][1..] == [];
    assert Min(l.batch, 1) == 1;
    assert Survivors([key], handles) == if key in handles then [] else [key];
    assert Round([key], handles, l.batch) == if key in handles then [] else [key];
    assert Stuck([key], handles, l.batch) <==> key !in handles;
  }

  // ---- The storage -----------------------------------------------------------------------

  lemma {:induction false} FinalFrame(m: map<Key, Node>, n: map<Key, Node>, order: seq<Key>, handles: set<Key>,
                                      l: Limits)
    requires SizesKept(m, n, order)
    ensures Final(m, order, handles, l.batch, l.maxMemory, l.maxObjects) ==
      Final(n, order, handles, l.batch, l.maxMemory, l.maxObjects)
    decreases |order|
  {
    TotalFrame(m, n, order);
    RoundShortens(order, handles, l.batch);
    if Over(m, order, l.maxMemory, l.maxObjects) && !Stuck(order, handles, l.batch) {
      RoundMembers(order, handles, l.batch);
      FinalFrame(m, n, Round(order, handles, l.batch), handles, l);
    }
  }

  /** Eviction by the policy's own cells is eviction of the table. */
  lemma EvictionOfTable(nodes: map<Key, Node>, t: Table, l: Limits)
    requires TableOk(t) && Sizes(nodes) == t.sizes
    ensures Final(nodes, t.order, t.handles, l.batch, l.maxMemory, l.maxObjects) == LastOrder(t, l)
    ensures Ends(nodes, t.order, t.handles, l.batch, l.maxMemory, l.maxObjects) <==> Settles(t, l)
  {
    var last := LastOrder(t, l);
    forall k | k in t.order ensures SizeOf(nodes, k) == SizeOf(AsNodes(t.sizes), k) { assert k in Sizes(nodes); }
    FinalFrame(nodes, AsNodes(t.sizes), t.order, t.handles, l);
    FinalMembers(nodes, t.order, t.handles, l);
    TotalFrame(nodes, AsNodes(t.sizes), last);
    FinalMeans(nodes, t.order, t.handles, l.batch, l.maxMemory, l.maxObjects);
    FinalMeans(AsNodes(t.sizes), t.order, t.handles, l.batch, l.maxMemory, l.maxObjects);
  }

  lemma LeftIsReduced(was: map<Key, Node>, now: map<Key, Node>, t: Table, order: seq<Key>, left: set<Key>)
    requires TableOk(t) && Sizes(was) == t.sizes && LeftOk(t.order, order, t.handles, left)
    requires SizesKept(was, now, order) && forall k :: k in now <==> k in order
    ensures Table(Sizes(now), order, left) == Reduced(t, order)
  {
    forall k | k in Sizes(now) ensures k in t.sizes && Sizes(now)[k] == t.sizes[k] {
      assert k in t.order && k in Sizes(was);
    }
  }

  lemma SizesTracked(was: map<Key, Node>, now: map<Key, Node>, key: Key, size: nat)
    requires SameSizes(was[key := Node(size, None, None)], now)
    ensures Sizes(now) == Sizes(was)[key := size]
  {
  }

  class ResidentStorage {
    const policy: LRUPolicy
    const batch: nat
    var handles: set<Key>

    ghost predicate Valid()
      reads this, policy
    {
      policy.Valid() && batch > 0 && TableOk(State())
    }

    ghost function State(): Table
      reads this, policy
    {
      Table(Sizes(policy.nodes), policy.order, handles)
    }

    ghost function Bounds(): Limits { Limits(batch, policy.maxMemory, policy.maxObjects) }

    constructor (l: Limits)
      requires l.batch > 0
      ensures Valid() && fresh(policy) && State() == EMPTY && Bounds() == l
    {
      policy := new LRUPolicy(l.maxMemory, l.maxObjects);
      batch := l.batch;
      handles := {};
    }

    /** Account for a handle and evict. */
    method Account(key: Key, size: nat, existing: bool) returns (ended: bool)
      requires policy.Valid() && batch > 0 && TableOk(Tracked(State(), key, size)) && size < WORD
      modifies this, policy
      ensures Valid() && State() == Settled(Tracked(old(State()), key, size), Bounds())
      ensures ended <==> Settles(Tracked(old(State()), key, size), Bounds())
    {
      Track(key, size, existing);
      ended := Evict();
    }

    method Track(key: Key, size: nat, existing: bool)
      requires policy.Valid() && size < WORD
      modifies policy
      ensures policy.Valid() && State() == Tracked(old(State()), key, size)
    {
      if existing {
        policy.OnUpdate(key, size);
      } else {
        policy.OnAdd(key, size);
      }
      SizesTracked(old(policy.nodes), policy.nodes, key, size);
    }

    method Evict() returns (ended: bool)
      requires policy.Valid() && batch > 0 && TableOk(State())
      modifies this, policy
      ensures Valid() && State() == Settled(old(State()), Bounds())
      ensures ended <==> Settles(old(State()), Bounds())
    {
      ghost var t, was := State(), policy.nodes;
      EvictionOfTable(was, t, Bounds());
      ended, handles := RunEviction(policy, batch, handles);
      LeftIsReduced(was, policy.nodes, t, policy.order, handles);
      SettledOk(t, Bounds());
    }

    /** The handle of an object: the one kept, or the object is opened and its handle kept. */
    method Files(key: Key, size: nat) returns (ended: bool)
      requires Valid() && size < WORD
      modifies this, policy
      ensures Valid() && State() == Opened(old(State()), key, size, Bounds())
      ensures ended <==> Returns(old(State()), Open(key, size), Bounds())
    {
      if key in handles {
        return true;
      }
      TrackedOk(State().(handles := handles + {key}), key, size);
      handles := handles + {key};
      ended := Account(key, size, false);
    }

    /** The part goes through the handle, which is then accounted for as one that is kept. */
    method PatchObject(key: Key, size: nat, grown: nat) returns (ended: bool)
      requires Valid() && size < WORD && grown < WORD
      modifies this, policy
      ensures Valid() && (ended <==> Returns(old(State()), Patch(key, size, grown), Bounds()))
      ensures State() ==
        if Returns(old(State()), Open(key, size), Bounds()) then Step(old(State()), Patch(key, size, grown), Bounds())
        else Opened(old(State()), key, size, Bounds())
    {
      ended := Files(key, size);
      if ended {
        TrackedOk(State(), key, grown);
        ended := Account(key, grown, true);
      }
    }

    method TouchObject(key: Key)
      requires Valid()
      modifies this, policy
      ensures Valid() && State() == Step(old(State()), Touch(key), Bounds())
      ensures TouchesExactly(old(State()), State(), key)
    {
      TouchedOk(State(), key);
      TouchedExactly(State(), key);
      policy.OnAccess(key);
      assert Sizes(policy.nodes) == old(Sizes(policy.nodes));
    }

    /** The handles of the covered keys are dropped, and then forgotten by the policy one by one. */
    method DeleteObjects(covered: set<Key>)
      requires Valid()
      modifies this, policy
      ensures Valid() && State() == Step(old(State()), Delete(covered), Bounds())
      ensures DropsExactly(old(State()), State(), covered)
    {
      ghost var t, was := State(), policy.nodes;
      var removed := handles * covered;
      handles := handles - covered;
      ForgetAll(policy, removed);
      SurvivorsMembers(t.order, removed);
      LeftIsReduced(was, policy.nodes, t, policy.order, handles);
      DroppedOk(t, covered);
      DroppedExactly(t, covered);
    }
  }

  method ForgetAll(policy: LRUPolicy, removed: set<Key>)
    requires policy.Valid()
    modifies policy
    ensures policy.Valid() && policy.order == Survivors(old(policy.order), removed)
    ensures SizesKept(old(policy.nodes), policy.nodes, policy.order)
  {
    var rest := removed;
    SurvivorsOfNone(policy.order);
    assert removed - rest == {};
    while rest != {}
      invariant rest <= removed && policy.Valid()
      invariant policy.order == Survivors(old(policy.order), removed - rest)
      invariant SizesKept(old(policy.nodes), policy.nodes, policy.order)
      decreases |rest|
    {
      var k :| k in rest;
      ghost var mid, order := policy.nodes, policy.order;
      WithoutSurvivors(old(policy.order), removed - rest, k);
      assert removed - (rest - {k}) == removed - rest + {k};
      ForgetOne(policy, k);
      SizesKeptOn(old(policy.nodes), mid, policy.nodes, order, policy.order);
      rest := rest - {k};
    }
    assert removed - rest == removed;
  }

  method ForgetOne(policy: LRUPolicy, key: Key)
    requires policy.Valid()
    modifies policy
    ensures policy.Valid() && policy.order == Without(old(policy.order), key)
    ensures SizesKept(old(policy.nodes), policy.nodes, policy.order)
    ensures forall k :: k in policy.order ==> k in old(policy.order)
  {
    WithoutMembers(policy.order, key);
    policy.OnRemove(key);
  }

  lemma {:induction false} SurvivorsOfNone(order: seq<Key>)
    ensures Survivors(order, {}) == order
  {
    SurvivorsLength(order, {});
  }

  lemma {:induction false} WithoutConcat(a: seq<Key>, b: seq<Key>, key: Key)
    ensures Without(a + b, key) == Without(a, key) + Without(b, key)
  {
    if a == [] {
      assert a + b == b;
    } else {
      assert (a + b)[1..] == a[1..] + b;
      WithoutConcat(a[1..], b, key);
    }
  }

  lemma {:induction false} WithoutSurvivors(order: seq<Key>, gone: set<Key>, key: Key)
    ensures Without(Survivors(order, gone), key) == Survivors(order, gone + {key})
  {
    if order != [] {
      var n := |order| - 1;
      WithoutSurvivors(order[..n], gone, key);
      WithoutConcat(Survivors(order[..n], gone), [order[n]], key);
      assert Without([order[n]], key) == if order[n] == key then [] else [order[n]];
    }
  }

  /** A patch on an empty storage: it returns exactly when the key alone is within the limits, before
      or after it has grown. Otherwise the key is tracked, has no handle, and is evicted for ever. */
  method OneKeyGetsStuck(key: Key, size: nat, grown: nat, l: Limits) returns (storage: ResidentStorage, ended: bool)
    requires l.batch > 0 && size < WORD && grown < WORD
    ensures ended <==> !AloneOver(size, l) || !AloneOver(grown, l)
    ensures !ended ==> storage.policy.order == [key] && storage.handles == {} && storage.policy.ShouldEvict()
  {
    storage := new ResidentStorage(l);
    ended := storage.PatchObject(key, size, grown);
    FirstPatchReturns(key, size, grown, l);
    if !ended {
      assert key in Sizes(storage.policy.nodes) && Sizes(storage.policy.nodes)[key] == grown;
      assert Total(storage.policy.nodes, [key]) == SizeOf(storage.policy.nodes, key) + Total(storage.policy.nodes, []);
    }
  }
}
