/** Key locks of the cache: no deadlock, no operation waiting on itself, and every schedule of
    the operations in flight comes to an end. */
module CacheLocks {
  import opened Sequences
  import opened ObjectKeys
  import opened CacheProtocol

  // ---- Queues ----------------------------------------------------------------------------

  lemma {:induction false} AheadAppend(q: seq<nat>, o: nat, x: nat)
    requires o in q
    ensures Ahead(q + [x], o) == Ahead(q, o)
  {
    if q[0] != o {
      AheadAppend(q[1..], o, x);
      assert (q + [x])[1..] == q[1..] + [x];
    }
  }

  lemma {:induction false} AheadWithout(q: seq<nat>, o: nat, x: nat)
    requires x != o
    ensures Ahead(Without(q, x), o) == Without(Ahead(q, o), x)
  {
    if q != [] {
      AheadWithout(q[1..], o, x);
      if q[0] != o && q[0] != x {
        assert ([q[0]] + Without(q[1..], x))[1..] == Without(q[1..], x);
        assert ([q[0]] + Ahead(q[1..], o))[1..] == Ahead(q[1..], o);
      } else if q[0] == x {
        assert ([q[0]] + Ahead(q[1..], o))[1..] == Ahead(q[1..], o);
      }
    }
  }

  lemma {:induction false} AheadMembers(q: seq<nat>, o: nat)
    ensures |Ahead(q, o)| <= |q|
    ensures forall i :: 0 <= i < |Ahead(q, o)| ==> Ahead(q, o)[i] == q[i] && q[i] != o
    ensures o in q ==> |Ahead(q, o)| < |q| && q[|Ahead(q, o)|] == o
  {
    if q != [] && q[0] != o {
      AheadMembers(q[1..], o);
    }
  }

  /** In a queue without repeats, being ahead is being at a smaller position. */
  lemma AheadIsOrder(q: seq<nat>, a: nat, b: nat)
    requires Distinct(q) && a in q && b in Ahead(q, a)
    ensures b in q && |Ahead(q, b)| < |Ahead(q, a)|
  {
    AheadMembers(q, a);
    AheadMembers(q, b);
    var i :| 0 <= i < |Ahead(q, a)| && Ahead(q, a)[i] == b;
    assert q[i] == b;
  }

  // ---- The lock invariant ----------------------------------------------------------------

  predicate TaskOk(t: Task)
  {
    && Ascending(t.plan)
    && t.lo <= t.got <= |t.plan|
    && (t.req.Delete? || t.plan == [t.req.key])
    && match t.phase
       case Fresh => t.req.Delete? && t.plan == []
       case Locking(_) => t.lo == 0 && t.got < |t.plan|
       case Locked => t.lo == 0 && t.got == |t.plan|
       case Probed => t.lo == 0 && t.got == |t.plan| && (t.req.Put? || t.req.Get?)
       case Checked(seen) => t.lo == 0 && t.got == |t.plan| && !t.req.Delete? && !t.req.Get? &&
         (t.req.Patch? ==> seen.Some?)
       case Stored(seen) => t.lo == 0 && t.got == |t.plan| && !t.req.Get? && (t.req.Patch? ==> seen.Some?)
       case Sending(found, sent) => t.lo == 0 && t.got == |t.plan| && t.req.Get? &&
         t.req.version + |sent| < |found.parts|
       case Leaving(_) => t.got == |t.plan|
       case Finished(_) => t.lo == t.got == |t.plan|
  }

  predicate Occupies(t: Task, k: Key) { Holds(t, k) || WaitsOn(t, k) }

  /** One key's queue: exactly the operations that hold or await its lock, once each, with
      every holder still compatible with those ahead of it. */
  ghost predicate QueueOk(s: State, k: Key)
  {
    && Distinct(Queue(s, k))
    && (forall o: nat :: o in Queue(s, k) <==> o < |s.ops| && Occupies(s.ops[o], k))
    && (forall o: nat :: o < |s.ops| && Holds(s.ops[o], k) ==> Grantable(s, k, o))
  }

  ghost predicate LockInv(s: State)
  {
    && (forall o :: 0 <= o < |s.ops| ==> TaskOk(s.ops[o]))
    && (forall k :: QueueOk(s, k))
  }

  /** A writer that holds a lock holds it alone. */
  lemma Exclusive(s: State, k: Key, a: nat, b: nat)
    requires LockInv(s) && a < |s.ops| && b < |s.ops|
    requires Holds(s.ops[a], k) && Holds(s.ops[b], k) && !s.ops[a].req.Get?
    ensures a == b
  {
    var q := Queue(s, k);
    assert QueueOk(s, k);
    AheadMembers(q, a);
    AheadMembers(q, b);
    assert q[0] == a;
    assert Ahead(q, b) != [] ==> !Reads(s, Ahead(q, b)[0]);
  }

  /** The fair lock by positions in its queue: the first is granted it, and a reader with none but readers
      before it. */
  lemma GrantMeans(s: State, k: Key, i: nat)
    requires Distinct(Queue(s, k)) && i < |Queue(s, k)|
    ensures Grantable(s, k, Queue(s, k)[i]) <==> i == 0 || forall j :: 0 <= j <= i ==> Reads(s, Queue(s, k)[j])
  {
    var q := Queue(s, k);
    AheadMembers(q, q[i]);
    var n := |Ahead(q, q[i])|;
    assert q[n] == q[i];
    assert n == i;
    assert AllRead(s, Ahead(q, q[i])) <==> forall j :: 0 <= j < i ==> Reads(s, q[j]) by {
      assert forall j :: 0 <= j < i ==> Ahead(q, q[i])[j] == q[j];
    }
  }

  predicate SameRequests(s: State, t: State)
  {
    forall i :: 0 <= i < |s.ops| ==> i < |t.ops| && t.ops[i].req == s.ops[i].req
  }

  lemma GrantedStays(s: State, t: State, k: Key, o: nat)
    requires Grantable(s, k, o) && SameRequests(s, t) && Queue(t, k) == Queue(s, k)
    ensures Grantable(t, k, o)
  {
  }

  lemma GrantedBeforeArrival(s: State, t: State, k: Key, o: nat, x: nat)
    requires Grantable(s, k, o) && SameRequests(s, t) && Queue(t, k) == Queue(s, k) + [x]
    ensures Grantable(t, k, o)
  {
    AheadAppend(Queue(s, k), o, x);
  }

  lemma GrantedAfterLeave(s: State, t: State, k: Key, o: nat, x: nat)
    requires Grantable(s, k, o) && SameRequests(s, t) && x != o && Queue(t, k) == Without(Queue(s, k), x)
    ensures Grantable(t, k, o)
  {
    var q := Queue(s, k);
    AheadWithout(q, o, x);
    WithoutMembers(q, x);
    WithoutMembers(Ahead(q, o), x);
    var rest := Without(Ahead(q, o), x);
    if Ahead(q, o) != [] {
      forall i | 0 <= i < |rest| ensures Reads(t, rest[i]) {
        assert rest[i] in Ahead(q, o);
      }
    }
  }

  /** A step that only moves one operation between program points with the same locks. */
  lemma QuietStep(s: State, t: State, o: nat)
    requires LockInv(s) && o < |s.ops| && t.queues == s.queues
    requires |t.ops| == |s.ops| && t.ops == s.ops[o := t.ops[o]]
    requires TaskOk(t.ops[o])
    requires t.ops[o].req == s.ops[o].req
    requires forall k :: Holds(t.ops[o], k) <==> Holds(s.ops[o], k)
    requires forall k :: WaitsOn(t.ops[o], k) <==> WaitsOn(s.ops[o], k)
    ensures LockInv(t)
  {
    forall k ensures QueueOk(t, k) {
      assert QueueOk(s, k);
      forall p: nat | p < |t.ops| && Holds(t.ops[p], k) ensures Grantable(t, k, p) {
        assert Holds(s.ops[p], k);
        GrantedStays(s, t, k, p);
      }
    }
  }

  lemma StartStep(s: State, req: Request)
    requires LockInv(s) && Enabled(s, Start(req))
    ensures LockInv(Apply(s, Start(req)))
  {
    var t := Apply(s, Start(req));
    forall k ensures QueueOk(t, k) {
      assert QueueOk(s, k);
      assert !Occupies(t.ops[|s.ops|], k);
      forall p: nat | p < |t.ops| && Holds(t.ops[p], k) ensures Grantable(t, k, p) {
        assert Holds(s.ops[p], k);
        GrantedStays(s, t, k, p);
      }
    }
  }

  lemma EnqueueStep(s: State, o: nat)
    requires LockInv(s) && Enabled(s, Enqueue(o))
    ensures LockInv(Apply(s, Enqueue(o)))
  {
    var t := Apply(s, Enqueue(o));
    var next := s.ops[o].plan[s.ops[o].got];
    LessIrreflexive(next);
    assert !Holds(s.ops[o], next);
    forall k ensures QueueOk(t, k) {
      assert QueueOk(s, k);
      assert Occupies(t.ops[o], k) <==> Occupies(s.ops[o], k) || k == next;
      assert k == next ==> o !in Queue(s, k);
      forall p: nat | p < |t.ops| && Holds(t.ops[p], k) ensures Grantable(t, k, p) {
        assert Holds(s.ops[p], k);
        if k == next { GrantedBeforeArrival(s, t, k, p, o); } else { GrantedStays(s, t, k, p); }
      }
    }
  }

  lemma GrantStep(s: State, o: nat)
    requires LockInv(s) && Enabled(s, Grant(o))
    ensures LockInv(Apply(s, Grant(o)))
  {
    var t := Apply(s, Grant(o));
    var a, b := s.ops[o], t.ops[o];
    assert b.plan[..b.got] == a.plan[..a.got] + [a.plan[a.got]];
    forall k ensures QueueOk(t, k) {
      assert QueueOk(s, k);
      assert Occupies(b, k) <==> Occupies(a, k);
      forall p: nat | p < |t.ops| && Holds(t.ops[p], k) ensures Grantable(t, k, p) {
        assert p != o ==> Holds(s.ops[p], k);
        GrantedStays(s, t, k, p);
      }
    }
  }

  lemma ReleasedLock(a: Task, k: Key)
    requires TaskOk(a) && a.phase.Leaving? && a.lo < a.got
    ensures Occupies(a.(lo := a.lo + 1), k) <==> Occupies(a, k) && k != a.plan[a.lo]
  {
    var gone, rest := a.plan[a.lo], a.plan[a.lo + 1..a.got];
    LessIrreflexive(gone);
    assert a.plan[a.lo..a.got] == [gone] + rest;
    assert forall i :: 0 <= i < |rest| ==> Less(gone, rest[i]);
  }

  lemma ReleaseQueue(s: State, o: nat, k: Key)
    requires LockInv(s) && Enabled(s, Release(o))
    ensures QueueOk(Apply(s, Release(o)), k)
  {
    var t := Apply(s, Release(o));
    var gone := s.ops[o].plan[s.ops[o].lo];
    assert QueueOk(s, k);
    ReleasedLock(s.ops[o], k);
    if k == gone {
      WithoutMembers(Queue(s, k), o);
      WithoutDistinct(Queue(s, k), o);
    }
    forall p: nat | p < |t.ops| && Holds(t.ops[p], k) ensures Grantable(t, k, p) {
      assert Holds(s.ops[p], k);
      if k == gone { GrantedAfterLeave(s, t, k, p, o); } else { GrantedStays(s, t, k, p); }
    }
  }

  lemma ReleaseStep(s: State, o: nat)
    requires LockInv(s) && Enabled(s, Release(o))
    ensures LockInv(Apply(s, Release(o)))
  {
    forall k ensures QueueOk(Apply(s, Release(o)), k) { ReleaseQueue(s, o, k); }
  }

  lemma SnapshotStep(s: State, o: nat, plan: seq<Key>)
    requires LockInv(s) && Enabled(s, Snapshot(o, plan))
    ensures LockInv(Apply(s, Snapshot(o, plan)))
  {
    QuietStep(s, Apply(s, Snapshot(o, plan)), o);
  }

  /** A change of program point that keeps the locks. */
  ghost predicate Moved(s: State, t: State, o: nat)
  {
    && o < |s.ops| == |t.ops|
    && t.queues == s.queues
    && t.ops == s.ops[o := s.ops[o].(phase := t.ops[o].phase)]
    && !s.ops[o].phase.Locking? && !t.ops[o].phase.Locking?
    && (TaskOk(s.ops[o]) ==> TaskOk(t.ops[o]))
  }

  lemma MoveStep(s: State, t: State, o: nat)
    requires LockInv(s) && Moved(s, t, o)
    ensures LockInv(t)
  {
    QuietStep(s, t, o);
  }

  lemma WriteMoves(s: State, o: nat, ok: bool)
    requires o < |s.ops| && WritePoint(s.ops[o])
    ensures Moved(s, ApplyWrite(s, o, ok), o)
    ensures ApplyWrite(s, o, ok).ops[o].phase.Stored? || ApplyWrite(s, o, ok).ops[o].phase.Leaving?
  {
    var t := ApplyWrite(s, o, ok);
    assert t.queues == s.queues && |t.ops| == |s.ops|;
    assert t.ops == s.ops[o := s.ops[o].(phase := t.ops[o].phase)];
  }

  lemma RecordMoves(s: State, o: nat)
    requires o < |s.ops| && s.ops[o].phase.Stored? && !s.ops[o].req.Get?
    ensures Moved(s, ApplyRecord(s, o), o)
    ensures ApplyRecord(s, o).ops[o].phase.Leaving?
  {
    var t := ApplyRecord(s, o);
    assert t.queues == s.queues && |t.ops| == |s.ops|;
    assert t.ops == s.ops[o := s.ops[o].(phase := t.ops[o].phase)];
  }

  /** Every step of every operation keeps the lock invariant. */
  lemma LockStep(s: State, e: Event)
    requires LockInv(s) && Enabled(s, e)
    ensures LockInv(Apply(s, e))
  {
    match e
    case Start(req) => StartStep(s, req);
    case Snapshot(o, plan) => SnapshotStep(s, o, plan);
    case Enqueue(o) => EnqueueStep(s, o);
    case Grant(o) => GrantStep(s, o);
    case Release(o) => ReleaseStep(s, o);
    case Write(o, ok) =>
      WriteMoves(s, o, ok);
      MoveStep(s, ApplyWrite(s, o, ok), o);
    case Record(o) =>
      RecordMoves(s, o);
      MoveStep(s, ApplyRecord(s, o), o);
    case _ =>
      MoveStep(s, Apply(s, e), e.op);
  }

  lemma LoadedLocks(store: map<Key, Object>)
    ensures LockInv(Load(store))
  {
    var s := Load(store);
    assert forall k :: QueueOk(s, k);
  }

  /** The lock invariant holds at the end of every run that starts with it. */
  lemma {:induction false} RunKeepsLocks(s: State, events: seq<Event>)
    requires LockInv(s) && IsRun(s, events)
    ensures LockInv(After(s, events))
    decreases |events|
  {
    if events != [] {
      LockStep(s, events[0]);
      RunKeepsLocks(Apply(s, events[0]), events[1..]);
    }
  }

  // ---- No cycle of waiting operations ----------------------------------------------------

  /** `a` waits for a lock that `b` holds or is to be granted first. */
  predicate WaitsFor(s: State, a: nat, b: nat)
  {
    a < |s.ops| && Waits(s.ops[a]) && b in Ahead(Queue(s, s.ops[a].plan[s.ops[a].got]), a)
  }

  /** Waiting operations ordered by the key they wait on, then by place in its queue. */
  ghost predicate Above(s: State, a: nat, b: nat)
  {
    && a < |s.ops| && b < |s.ops| && Waits(s.ops[a]) && Waits(s.ops[b])
    && var ka, kb := s.ops[a].plan[s.ops[a].got], s.ops[b].plan[s.ops[b].got];
       Less(ka, kb) || (ka == kb && |Ahead(Queue(s, kb), b)| < |Ahead(Queue(s, ka), a)|)
  }

  /** Whoever is waited for either runs or waits higher up. */
  lemma WaitsForGoesUp(s: State, a: nat, b: nat)
    requires LockInv(s) && WaitsFor(s, a, b)
    ensures b < |s.ops| && (Waits(s.ops[b]) ==> Above(s, a, b))
  {
    var k := s.ops[a].plan[s.ops[a].got];
    var q := Queue(s, k);
    assert QueueOk(s, k);
    assert WaitsOn(s.ops[a], k);
    AheadIsOrder(q, a, b);
    assert Occupies(s.ops[b], k);
  }

  lemma AboveTransitive(s: State, a: nat, b: nat, c: nat)
    requires Above(s, a, b) && Above(s, b, c)
    ensures Above(s, a, c)
  {
    var ka, kb, kc := s.ops[a].plan[s.ops[a].got], s.ops[b].plan[s.ops[b].got], s.ops[c].plan[s.ops[c].got];
    if Less(ka, kb) && Less(kb, kc) { LessTransitive(ka, kb, kc); }
  }

  predicate IsChain(s: State, chain: seq<nat>)
  {
    |chain| >= 2 && forall i :: 0 <= i < |chain| - 1 ==> WaitsFor(s, chain[i], chain[i + 1])
  }

  lemma {:induction false} ChainGoesUp(s: State, chain: seq<nat>)
    requires LockInv(s) && IsChain(s, chain)
    ensures var last := chain[|chain| - 1]; last < |s.ops| && (Waits(s.ops[last]) ==> Above(s, chain[0], last))
  {
    var n := |chain| - 1;
    WaitsForGoesUp(s, chain[n - 1], chain[n]);
    if n > 1 {
      var front := chain[..n];
      assert forall i :: 0 <= i < |front| - 1 ==> WaitsFor(s, chain[i], chain[i + 1]);
      ChainGoesUp(s, front);
      assert Waits(s.ops[chain[n - 1]]) by { assert WaitsFor(s, chain[n - 1], chain[n]); }
      if Waits(s.ops[chain[n]]) { AboveTransitive(s, chain[0], chain[n - 1], chain[n]); }
    }
  }

  /** The waits-for relation has no cycle, so no operation waits on itself. */
  lemma NoWaitCycle(s: State, chain: seq<nat>)
    requires LockInv(s) && IsChain(s, chain)
    ensures chain[0] != chain[|chain| - 1]
  {
    ChainGoesUp(s, chain);
    assert WaitsFor(s, chain[0], chain[1]);
    LessIrreflexive(s.ops[chain[0]].plan[s.ops[chain[0]].got]);
  }

  // ---- Progress --------------------------------------------------------------------------

  lemma MaxKey(keys: set<Key>) returns (top: Key)
    requires keys != {}
    ensures top in keys && forall k :: k in keys && k != top ==> Less(k, top)
  {
    top :| top in keys;
    var rest := keys - {top};
    assert forall k :: k in keys && k != top ==> k in rest;
    if rest != {} {
      var other := MaxKey(rest);
      LessTotal(top, other);
      if Less(top, other) {
        forall k | k in keys && k != other ensures Less(k, other) { }
        top := other;
      } else {
        forall k | k in keys && k != top ensures Less(k, top) {
          if k != other { LessTransitive(k, other, top); }
        }
      }
    }
  }

  /** Sorting the matching keys is always possible. */
  lemma SortKeys(keys: set<Key>) returns (plan: seq<Key>)
    ensures Ascending(plan) && forall k :: k in plan <==> k in keys
  {
    plan := [];
    if keys != {} {
      var top := MaxKey(keys);
      var rest := SortKeys(keys - {top});
      plan := rest + [top];
      forall i, j | 0 <= i < j < |plan| ensures Less(plan[i], plan[j]) {
        assert plan[i] in rest;
      }
    }
  }

  /** An operation that is not waiting for a lock and not finished can step. */
  lemma RunnerCanStep(s: State, o: nat) returns (e: Event)
    requires LockInv(s) && o < |s.ops| && !Waits(s.ops[o]) && !s.ops[o].phase.Finished?
    ensures Enabled(s, e) && !e.Start?
  {
    var t := s.ops[o];
    assert TaskOk(t);
    match t.phase
    case Fresh =>
      var plan := SortKeys(set k | k in s.meta && Matches(t.req.filter, k));
      e := Snapshot(o, plan);
    case Locking(_) => e := Enqueue(o);
    case Locked => e := if t.req.Put? || t.req.Get? then Probe(o)
      else if t.req.Delete? then Write(o, true) else Check(o, true);
    case Probed => e := Check(o, true);
    case Checked(_) => e := Write(o, true);
    case Stored(_) => e := Record(o);
    case Sending(_, _) => e := Send(o, true);
    case Leaving(_) => e := if t.lo < t.got then Release(o) else Finish(o);
  }

  ghost function KeysAbove(s: State, k: Key): set<Key> { set x | x in s.queues && Less(k, x) }

  /** Following the head of the queue from a waiting operation leads up to one that can step. */
  lemma WaiterIsServed(s: State, o: nat) returns (e: Event)
    requires LockInv(s) && o < |s.ops| && Waits(s.ops[o])
    ensures Enabled(s, e) && !e.Start?
    decreases |KeysAbove(s, s.ops[o].plan[s.ops[o].got])|
  {
    var k := s.ops[o].plan[s.ops[o].got];
    assert QueueOk(s, k);
    assert WaitsOn(s.ops[o], k);
    var q := Queue(s, k);
    var head := q[0];
    assert head in q && Occupies(s.ops[head], k);
    assert TaskOk(s.ops[head]);
    if WaitsOn(s.ops[head], k) {
      e := Grant(head);
    } else if !Waits(s.ops[head]) {
      e := RunnerCanStep(s, head);
    } else {
      var above := s.ops[head].plan[s.ops[head].got];
      assert Less(k, above);
      assert QueueOk(s, above) && WaitsOn(s.ops[head], above);
      assert above in KeysAbove(s, k);
      LessIrreflexive(above);
      forall x | x in KeysAbove(s, above) ensures x in KeysAbove(s, k) { LessTransitive(k, above, x); }
      assert KeysAbove(s, above) < KeysAbove(s, k);
      SmallerSet(KeysAbove(s, above), KeysAbove(s, k));
      e := WaiterIsServed(s, head);
    }
  }

  lemma SmallerSet(a: set<Key>, b: set<Key>)
    requires a < b
    ensures |a| < |b|
  {
    assert b == a + (b - a);
    assert b - a != {};
  }

  predicate AllFinished(s: State) { forall o :: 0 <= o < |s.ops| ==> s.ops[o].phase.Finished? }

  /** While any operation is unfinished, some operation can step. */
  lemma SomeoneCanStep(s: State) returns (e: Event)
    requires LockInv(s) && !AllFinished(s)
    ensures Enabled(s, e) && !e.Start?
  {
    var o :| 0 <= o < |s.ops| && !s.ops[o].phase.Finished?;
    if Waits(s.ops[o]) { e := WaiterIsServed(s, o); } else { e := RunnerCanStep(s, o); }
  }

  // ---- Every schedule ends ---------------------------------------------------------------

  /** Steps an operation still has to make, once it knows its locks and what it sends. */
  function Work(t: Task): nat
  {
    var n := |t.plan|;
    match t.phase
    case Fresh => 0
    case Locking(queued) => 5 + n + 2 * Minus(n, t.got) - (if queued && t.got < n then 1 else 0)
    case Locked => 5 + n
    case Probed => 4 + n
    case Checked(_) => 3 + n
    case Stored(_) => 2 + n
    case Sending(found, sent) => 2 + n + Minus(|found.parts|, |sent|)
    case Leaving(_) => 1 + Minus(t.got, t.lo)
    case Finished(_) => 0
  }

  function Minus(a: nat, b: nat): nat { if a >= b then a - b else 0 }

  /** A delete before its snapshot and a reader before its look at the store do not know yet. */
  function Unplanned(t: Task): nat
  {
    if t.phase.Fresh? || (t.req.Get? && (t.phase.Locking? || t.phase.Locked? || t.phase.Probed?)) then 1 else 0
  }

  ghost function Sum(f: Task -> nat, ops: seq<Task>): nat
  {
    if ops == [] then 0 else f(ops[0]) + Sum(f, ops[1..])
  }

  lemma {:induction false} SumUpdate(f: Task -> nat, ops: seq<Task>, o: nat, t: Task)
    requires o < |ops|
    ensures Sum(f, ops[o := t]) + f(ops[o]) == Sum(f, ops) + f(t)
  {
    if o == 0 {
      assert ops[o := t][1..] == ops[1..];
    } else {
      SumUpdate(f, ops[1..], o - 1, t);
      assert ops[o := t][1..] == ops[1..][o - 1 := t];
    }
  }

  predicate Smaller(b: Task, a: Task)
  {
    Unplanned(b) < Unplanned(a) || (Unplanned(b) == Unplanned(a) && Work(b) < Work(a))
  }

  /** One operation gets smaller and the others are left alone. */
  predicate Shrinks(s: State, t: State, o: nat)
  {
    o < |s.ops| == |t.ops| && t.ops == s.ops[o := t.ops[o]] && Smaller(t.ops[o], s.ops[o])
  }

  lemma LockingShrinks(s: State, e: Event)
    requires LockInv(s) && Enabled(s, e) && (e.Snapshot? || e.Enqueue? || e.Grant? || e.Release?)
    ensures Shrinks(s, Apply(s, e), e.op)
  {
    assert TaskOk(s.ops[e.op]);
  }

  lemma SendShrinks(s: State, o: nat, ok: bool)
    requires LockInv(s) && Enabled(s, Send(o, ok))
    ensures Shrinks(s, Apply(s, Send(o, ok)), o)
  {
    assert TaskOk(s.ops[o]);
  }

  lemma CheckShrinks(s: State, o: nat, ok: bool)
    requires LockInv(s) && Enabled(s, Check(o, ok))
    ensures Shrinks(s, Apply(s, Check(o, ok)), o)
  {
    assert TaskOk(s.ops[o]);
  }

  lemma PointShrinks(s: State, e: Event)
    requires LockInv(s) && Enabled(s, e) && (e.Probe? || e.Finish?)
    ensures Shrinks(s, Apply(s, e), e.op)
  {
    assert TaskOk(s.ops[e.op]);
  }

  lemma LaterPointIsSmaller(a: Task, phase: Phase)
    requires TaskOk(a) && (phase.Stored? || phase.Leaving?)
    requires a.phase.Locked? || a.phase.Checked? || (a.phase.Stored? && phase.Leaving?)
    ensures Smaller(a.(phase := phase), a)
  {
  }

  lemma WriteShrinks(s: State, o: nat, ok: bool)
    requires LockInv(s) && Enabled(s, Write(o, ok))
    ensures Shrinks(s, ApplyWrite(s, o, ok), o)
  {
    WriteMoves(s, o, ok);
    LaterPointIsSmaller(s.ops[o], ApplyWrite(s, o, ok).ops[o].phase);
  }

  lemma RecordShrinks(s: State, o: nat)
    requires LockInv(s) && Enabled(s, Record(o))
    ensures Shrinks(s, ApplyRecord(s, o), o)
  {
    RecordMoves(s, o);
    LaterPointIsSmaller(s.ops[o], ApplyRecord(s, o).ops[o].phase);
  }

  lemma StepShrinks(s: State, e: Event)
    requires LockInv(s) && Enabled(s, e) && !e.Start?
    ensures Shrinks(s, Apply(s, e), e.op)
  {
    match e
    case Write(o, ok) => WriteShrinks(s, o, ok);
    case Record(o) => RecordShrinks(s, o);
    case Probe(_) => PointShrinks(s, e);
    case Check(o, ok) => CheckShrinks(s, o, ok);
    case Send(o, ok) => SendShrinks(s, o, ok);
    case Finish(_) => PointShrinks(s, e);
    case _ => LockingShrinks(s, e);
  }

  /** The pair (operations without a plan, total work) shrinks lexicographically. */
  lemma MeasureShrinks(s: State, e: Event)
    requires LockInv(s) && Enabled(s, e) && !e.Start?
    ensures var t := Apply(s, e);
      || Sum(Unplanned, t.ops) < Sum(Unplanned, s.ops)
      || (Sum(Unplanned, t.ops) == Sum(Unplanned, s.ops) && Sum(Work, t.ops) < Sum(Work, s.ops))
  {
    StepShrinks(s, e);
    var t := Apply(s, e);
    SumUpdate(Unplanned, s.ops, e.op, t.ops[e.op]);
    SumUpdate(Work, s.ops, e.op, t.ops[e.op]);
  }

  /** `n` of the steps, from the k-th on. */
  function Steps(events: nat -> Event, k: nat, n: nat): seq<Event>
    decreases n
  {
    if n == 0 then [] else [events(k)] + Steps(events, k + 1, n - 1)
  }

  /** From the k-th on, `n` of the steps can be made one after another, and the next one cannot. */
  ghost predicate StopsAfter(s: State, events: nat -> Event, k: nat, n: nat)
    decreases n
  {
    if n == 0 then !Enabled(s, events(k))
    else Enabled(s, events(k)) && StopsAfter(Apply(s, events(k)), events, k + 1, n - 1)
  }

  lemma SomeStepIsLast(s: State, events: nat -> Event, k: nat) returns (n: nat)
    requires LockInv(s) && forall i: nat :: !events(i).Start?
    ensures StopsAfter(s, events, k, n)
    decreases Sum(Unplanned, s.ops), Sum(Work, s.ops)
  {
    if !Enabled(s, events(k)) {
      n := 0;
    } else {
      LockStep(s, events(k));
      MeasureShrinks(s, events(k));
      var m := SomeStepIsLast(Apply(s, events(k)), events, k + 1);
      n := m + 1;
    }
  }

  lemma {:induction false} StopsAfterRun(s: State, events: nat -> Event, k: nat, n: nat)
    requires StopsAfter(s, events, k, n)
    ensures IsRun(s, Steps(events, k, n)) && !Enabled(After(s, Steps(events, k, n)), events(k + n))
    decreases n
  {
    if n > 0 {
      StopsAfterRun(Apply(s, events(k)), events, k + 1, n - 1);
      OneBefore(s, events(k), Steps(events, k + 1, n - 1));
    }
  }

  lemma OneBefore(s: State, e: Event, rest: seq<Event>)
    requires Enabled(s, e) && IsRun(Apply(s, e), rest)
    ensures IsRun(s, [e] + rest) && After(s, [e] + rest) == After(Apply(s, e), rest)
  {
    assert ([e] + rest)[1..] == rest;
  }

  /** No endless run: every infinite sequence of steps without a new request comes to a step that is not
      enabled. So however steps are chosen, by whatever has happened before, a run ends; and where no
      step is left, all operations have finished (SomeoneCanStep). */
  lemma NoEndlessRun(s: State, events: nat -> Event) returns (n: nat)
    requires LockInv(s) && forall i: nat :: !events(i).Start?
    ensures IsRun(s, Steps(events, 0, n)) && !Enabled(After(s, Steps(events, 0, n)), events(n))
  {
    n := SomeStepIsLast(s, events, 0);
    StopsAfterRun(s, events, 0, n);
  }

  /** Any rule that, from the steps so far and the state, picks a step of an operation whenever there is
      one. */
  ghost predicate IsScheduler(pick: (seq<Event>, State) -> Event)
  {
    forall past, s, e :: Enabled(s, e) && !e.Start? ==> Enabled(s, pick(past, s)) && !pick(past, s).Start?
  }

  ghost predicate Follows(past: seq<Event>, s: State, events: seq<Event>, pick: (seq<Event>, State) -> Event)
    requires IsRun(s, events)
    decreases |events|
  {
    events == [] || (events[0] == pick(past, s) && Follows(past + [events[0]], Apply(s, events[0]), events[1..], pick))
  }

  /** Whatever the scheduler, without new requests every operation in flight finishes. */
  lemma EveryScheduleEnds(past: seq<Event>, s: State, pick: (seq<Event>, State) -> Event) returns (events: seq<Event>)
    requires LockInv(s) && IsScheduler(pick)
    ensures IsRun(s, events) && Follows(past, s, events, pick) && AllFinished(After(s, events))
    decreases Sum(Unplanned, s.ops), Sum(Work, s.ops)
  {
    if AllFinished(s) {
      events := [];
    } else {
      var _ := SomeoneCanStep(s);
      var e := pick(past, s);
      LockStep(s, e);
      MeasureShrinks(s, e);
      var rest := EveryScheduleEnds(past + [e], Apply(s, e), pick);
      events := [e] + rest;
      assert events[1..] == rest;
    }
  }
}
