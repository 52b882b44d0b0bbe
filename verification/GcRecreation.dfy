/** Which objects a deletion of the collector can erase: the listed one, and exactly those created
    again under its key with as many parts and the same creation time. */
module GcRecreation {
  import opened Wrappers
  import opened Sequences
  import opened ObjectKeys
  import opened CacheProtocol
  import opened CacheLocks
  import opened CacheAgreement
  import opened GcSafety
  import Gc = GarbageCollector

  // ---- One operation at a time -----------------------------------------------------------

  function LastTask(s: State): Task
    requires s.ops != []
  {
    s.ops[|s.ops| - 1]
  }

  /** The last operation is at this point, and holds the lock of `k` alone. */
  predicate AloneAt(s: State, k: Key, req: Request, phase: Phase)
  {
    s.ops != [] && LastTask(s) == Task(req, [k], 0, 1, phase) && Queue(s, k) == [|s.ops| - 1]
  }

  /** The operations before the n-th are as they were, and there is one more. */
  predicate OneAfter(s: State, t: State, n: nat) { |t.ops| == n + 1 && |s.ops| >= n && t.ops[..n] == s.ops[..n] }

  predicate SameContent(s: State, t: State) { t.store == s.store && t.meta == s.meta }

  /** What one request, run to its end, leaves under its key. */
  predicate Leaves(s: State, t: State, req: Request, k: Key, left: Option<Object>)
  {
    && OneAfter(s, t, |s.ops|) && t.ops[|s.ops|].req == req && Queue(t, k) == []
    && t.store == (match left case Some(x) => s.store[k := x] case None => s.store - {k})
    && t.meta == (match left case Some(x) => s.meta[k := MetaOf(x)] case None => s.meta - {k})
  }

  /** One step of the last operation to another point of its program. */
  lemma Goes(s0: State, before: seq<Event>, e: Event, k: Key, req: Request, phase: Phase, next: Phase)
    returns (events: seq<Event>)
    requires IsRun(s0, before) && AloneAt(After(s0, before), k, req, phase)
    requires Enabled(After(s0, before), e) && !e.Start? && e.op == |After(s0, before).ops| - 1
    requires Moved(After(s0, before), Apply(After(s0, before), e), e.op)
    requires LastTask(Apply(After(s0, before), e)).phase == next
    ensures IsRun(s0, events) && After(s0, events) == Apply(After(s0, before), e)
    ensures AloneAt(After(s0, events), k, req, next) && OneAfter(After(s0, before), After(s0, events), e.op)
  {
    OneMore(s0, before, e);
    events := before + [e];
  }

  /** An operation that asks for a lock nobody holds or awaits gets it. */
  lemma Granted(s0: State, before: seq<Event>, k: Key, req: Request) returns (events: seq<Event>)
    requires IsRun(s0, before) && After(s0, before).ops != [] && Queue(After(s0, before), k) == []
    requires LastTask(After(s0, before)) == Task(req, [k], 0, 0, Locking(false))
    ensures IsRun(s0, events) && AloneAt(After(s0, events), k, req, Locked)
    ensures SameContent(After(s0, before), After(s0, events))
    ensures OneAfter(After(s0, before), After(s0, events), |After(s0, before).ops| - 1)
  {
    var n := |After(s0, before).ops| - 1;
    OneMore(s0, before, Enqueue(n));
    events := before + [Enqueue(n)];
    assert Queue(After(s0, events), k) == [n];
    OneMore(s0, events, Grant(n));
    events := events + [Grant(n)];
  }

  lemma Locks(s0: State, before: seq<Event>, req: Request) returns (events: seq<Event>)
    requires IsRun(s0, before) && !req.Delete? && Admissible(req) && Queue(After(s0, before), req.key) == []
    ensures IsRun(s0, events) && AloneAt(After(s0, events), req.key, req, Locked)
    ensures SameContent(After(s0, before), After(s0, events))
    ensures OneAfter(After(s0, before), After(s0, events), |After(s0, before).ops|)
  {
    OneMore(s0, before, Start(req));
    events := before + [Start(req)];
    events := Granted(s0, events, req.key, req);
  }

  /** A delete whose filter covers one key of the metadata map takes the lock of that key. */
  lemma LocksCovered(s0: State, before: seq<Event>, filter: ObjectKey, k: Key) returns (events: seq<Event>)
    requires IsRun(s0, before) && Queue(After(s0, before), k) == [] && OnlyMatch(After(s0, before), filter, k)
    ensures IsRun(s0, events) && AloneAt(After(s0, events), k, Delete(filter), Locked)
    ensures SameContent(After(s0, before), After(s0, events))
    ensures OneAfter(After(s0, before), After(s0, events), |After(s0, before).ops|)
  {
    var n := |After(s0, before).ops|;
    OneMore(s0, before, Start(Delete(filter)));
    events := before + [Start(Delete(filter))];
    OneMore(s0, events, Snapshot(n, [k]));
    events := events + [Snapshot(n, [k])];
    events := Granted(s0, events, k, Delete(filter));
  }

  /** `k` is in metadata, and the only key there and in the store that the filter covers. */
  predicate OnlyMatch(s: State, filter: ObjectKey, k: Key)
  {
    && k in s.meta && Matches(filter, k)
    && (forall other :: other in s.meta && Matches(filter, other) ==> other == k)
    && (forall other :: other in s.store && Matches(filter, other) ==> other == k)
  }

  /** A holder that has its answer leaves the key free. */
  lemma Frees(s0: State, before: seq<Event>, k: Key, req: Request, answer: Response) returns (events: seq<Event>)
    requires IsRun(s0, before) && AloneAt(After(s0, before), k, req, Leaving(answer))
    ensures IsRun(s0, events) && SameContent(After(s0, before), After(s0, events)) && Queue(After(s0, events), k) == []
    ensures OneAfter(After(s0, before), After(s0, events), |After(s0, before).ops| - 1)
    ensures LastTask(After(s0, events)).req == req
  {
    var s := After(s0, before);
    var n: nat := |s.ops| - 1;
    OneMore(s0, before, Release(n));
    events := before + [Release(n)];
    var q := Queue(s, k);
    assert q == [n] && q[1..] == [];
    assert Without(q, n) == Without(q[1..], n);
  }

  /** From the storage call to the end, for an operation whose call succeeds. */
  lemma Ends(s0: State, before: seq<Event>, k: Key, req: Request, phase: Phase) returns (events: seq<Event>)
    requires IsRun(s0, before) && AloneAt(After(s0, before), k, req, phase) && !req.Get?
    requires WritePoint(LastTask(After(s0, before)))
    requires WriteOutcome(After(s0, before), LastTask(After(s0, before)), true).Stored?
    ensures IsRun(s0, events) && Queue(After(s0, events), k) == []
    ensures OneAfter(After(s0, before), After(s0, events), |After(s0, before).ops| - 1)
    ensures LastTask(After(s0, events)).req == req
    ensures var s := After(s0, before);
      var stored := LastTask(s).(phase := WriteOutcome(s, LastTask(s), true));
      && After(s0, events).store == WrittenStore(s, LastTask(s))
      && After(s0, events).meta == RecordedMeta(s, stored)
  {
    var s := After(s0, before);
    var n := |s.ops| - 1;
    var next := WriteOutcome(s, LastTask(s), true);
    WriteMoves(s, n, true);
    events := Goes(s0, before, Write(n, true), k, req, phase, next);
    var t := After(s0, events);
    RecordMoves(t, n);
    events := Goes(s0, events, Record(n), k, req, next, Leaving(RecordAnswer(LastTask(t))));
    events := Frees(s0, events, k, req, RecordAnswer(LastTask(t)));
  }

  // ---- Whole requests that meet nobody ---------------------------------------------------

  lemma Deletes(s0: State, before: seq<Event>, filter: ObjectKey, k: Key) returns (events: seq<Event>)
    requires IsRun(s0, before) && Queue(After(s0, before), k) == [] && OnlyMatch(After(s0, before), filter, k)
    ensures IsRun(s0, events) && Leaves(After(s0, before), After(s0, events), Delete(filter), k, None)
  {
    var s := After(s0, before);
    events := LocksCovered(s0, before, filter, k);
    events := Ends(s0, events, k, Delete(filter), Locked);
    assert Erase(s.store, filter) == s.store - {k};
    assert Erase(s.meta, filter) == s.meta - {k};
  }

  lemma Puts(s0: State, before: seq<Event>, put: Request) returns (events: seq<Event>)
    requires IsRun(s0, before) && put.Put? && Admissible(put) && Queue(After(s0, before), put.key) == []
    requires put.key !in After(s0, before).meta && put.key !in After(s0, before).store
    ensures IsRun(s0, events)
    ensures Leaves(After(s0, before), After(s0, events), put, put.key, Some(Object(put.dataType, [put.part])))
  {
    events := Locks(s0, before, put);
    var n := |After(s0, events).ops| - 1;
    events := Goes(s0, events, Probe(n), put.key, put, Locked, Probed);
    events := Goes(s0, events, Check(n, true), put.key, put, Probed, Checked(None));
    events := Ends(s0, events, put.key, put, Checked(None));
    NewMetaAgrees(put.dataType, put.part);
  }

  lemma Patches(s0: State, before: seq<Event>, patch: Request) returns (events: seq<Event>)
    requires IsRun(s0, before) && patch.Patch? && Admissible(patch) && Queue(After(s0, before), patch.key) == []
    requires patch.key in After(s0, before).store && After(s0, before).store[patch.key].parts != []
    requires After(s0, before).store[patch.key].dataType == patch.dataType
    ensures IsRun(s0, events)
    ensures var s := After(s0, before);
      Leaves(s, After(s0, events), patch, patch.key, Some(Extend(s.store[patch.key], patch.part)))
  {
    var seen := After(s0, before).store[patch.key];
    events := Locks(s0, before, patch);
    var n := |After(s0, events).ops| - 1;
    events := Goes(s0, events, Check(n, true), patch.key, patch, Locked, Checked(Some(seen)));
    events := Ends(s0, events, patch.key, patch, Checked(Some(seen)));
    PatchedMetaAgrees(seen, patch.part);
  }

  /** A compare-and-delete that meets nobody, up to its storage call. */
  lemma Compares(s0: State, before: seq<Event>, m: Gc.Metadata) returns (events: seq<Event>)
    requires IsRun(s0, before) && ProperKey(m.key) && Queue(After(s0, before), m.key) == []
    requires Lists(After(s0, before), m)
    ensures IsRun(s0, events) && SameContent(After(s0, before), After(s0, events))
    ensures AloneAt(After(s0, events), m.key, CallFor(m), Checked(None))
    ensures OneAfter(After(s0, before), After(s0, events), |After(s0, before).ops|)
  {
    events := Locks(s0, before, CallFor(m));
    var n := |After(s0, events).ops| - 1;
    events := Goes(s0, events, Check(n, true), m.key, CallFor(m), Locked, Checked(None));
  }

  // ---- Created again ---------------------------------------------------------------------

  /** No deletion of the collector has been issued. */
  predicate NoneIssued(s: State) { forall p :: 0 <= p < |s.ops| ==> !s.ops[p].req.CompareAndDelete? }

  lemma StillNone(s: State, t: State, req: Request)
    requires NoneIssued(s) && OneAfter(s, t, |s.ops|) && t.ops[|s.ops|].req == req && !req.CompareAndDelete?
    ensures NoneIssued(t)
  {
    forall p | 0 <= p < |t.ops| ensures !t.ops[p].req.CompareAndDelete? {
      if p < |s.ops| { assert t.ops[..|s.ops|][p] == s.ops[..|s.ops|][p]; }
    }
  }

  /** `s` with `x` under `k` and nobody at work on it, reached without a deletion of the collector. */
  predicate Holding(s: State, store: map<Key, Object>, k: Key, x: Object)
  {
    && NoneIssued(s) && Queue(s, k) == [] && s.store == store[k := x]
    && k in s.meta && s.meta[k] == MetaOf(x)
  }

  /** A put and patches build any object under a key that is free. */
  lemma {:induction false} Builds(s0: State, before: seq<Event>, k: Key, x: Object) returns (events: seq<Event>)
    requires IsRun(s0, before) && ProperKey(k) && x.parts != [] && NoneIssued(After(s0, before))
    requires Queue(After(s0, before), k) == [] && k !in After(s0, before).meta && k !in After(s0, before).store
    ensures IsRun(s0, events) && Holding(After(s0, events), After(s0, before).store, k, x)
    decreases |x.parts|
  {
    var n := |x.parts| - 1;
    var s := After(s0, before);
    if n == 0 {
      var put := Put(k, x.dataType, x.parts[0]);
      events := Puts(s0, before, put);
      StillNone(s, After(s0, events), put);
      assert [x.parts[0]] == x.parts;
    } else {
      var less := Object(x.dataType, x.parts[..n]);
      events := Builds(s0, before, k, less);
      events := Grows(s0, events, s.store, k, x);
    }
  }

  lemma Grows(s0: State, before: seq<Event>, store: map<Key, Object>, k: Key, x: Object) returns (events: seq<Event>)
    requires IsRun(s0, before) && ProperKey(k) && |x.parts| > 1
    requires Holding(After(s0, before), store, k, Object(x.dataType, x.parts[..|x.parts| - 1]))
    ensures IsRun(s0, events) && Holding(After(s0, events), store, k, x)
  {
    var n := |x.parts| - 1;
    var s := After(s0, before);
    var patch := Patch(k, x.dataType, x.parts[n]);
    events := Patches(s0, before, patch);
    StillNone(s, After(s0, events), patch);
    assert x.parts[..n] + [x.parts[n]] == x.parts;
  }

  /** What a listing of the loaded store says of one object. */
  function Listed(store: map<Key, Object>, k: Key): Gc.Metadata
    requires k in store
  {
    var m := MetaOf(store[k]);
    Gc.Metadata(k, m.version, m.creationTime)
  }

  /** Only operation `o` is a deletion of the collector; it was issued for `m` and is about to erase `x`. */
  ghost predicate ErasesNext(t: State, o: nat, m: Gc.Metadata, x: Object)
  {
    && Enabled(t, Write(o, true)) && t.ops[o].req == CallFor(m)
    && (forall p :: 0 <= p < |t.ops| && p != o ==> !t.ops[p].req.CompareAndDelete?)
    && m.key in t.store && t.store[m.key] == x
  }

  /** Some run from the listing on comes to a deletion, the only one, that is about to erase `x`. */
  ghost predicate CanErase(s: State, m: Gc.Metadata, x: Object)
  {
    exists events, o :: IsRun(s, events) && ErasesNext(After(s, events), o, m, x)
  }

  lemma Replaces(s0: State, k: Key, filter: ObjectKey, x: Object) returns (events: seq<Event>)
    requires ProperKey(k) && Queue(s0, k) == [] && NoneIssued(s0) && OnlyMatch(s0, filter, k) && x.parts != []
    ensures IsRun(s0, events) && Holding(After(s0, events), s0.store, k, x)
  {
    assert After(s0, []) == s0;
    var first := Deletes(s0, [], filter, k);
    StillNone(s0, After(s0, first), Delete(filter));
    events := Builds(s0, first, k, x);
    assert (s0.store - {k})[k := x] == s0.store[k := x];
  }

  lemma Issues(s0: State, before: seq<Event>, store: map<Key, Object>, k: Key, x: Object, m: Gc.Metadata)
    returns (events: seq<Event>)
    requires IsRun(s0, before) && ProperKey(k) && Holding(After(s0, before), store, k, x)
    requires m.key == k && m.version == |x.parts| && x.parts != [] && m.creationTime == x.parts[0].creationTime
    ensures IsRun(s0, events) && After(s0, events).store == store[k := x]
    ensures After(s0, events).ops != [] && ErasesNext(After(s0, events), |After(s0, events).ops| - 1, m, x)
  {
    var s := After(s0, before);
    events := Compares(s0, before, m);
    var t, o := After(s0, events), |s.ops|;
    forall p | 0 <= p < |t.ops| && p != o ensures !t.ops[p].req.CompareAndDelete? {
      assert t.ops[..o][p] == s.ops[..o][p];
    }
  }

  lemma Recreates(s0: State, k: Key, filter: ObjectKey, x: Object, m: Gc.Metadata) returns (events: seq<Event>, o: nat)
    requires ProperKey(k) && Queue(s0, k) == [] && NoneIssued(s0) && OnlyMatch(s0, filter, k)
    requires m.key == k && m.version == |x.parts| && x.parts != [] && m.creationTime == x.parts[0].creationTime
    ensures IsRun(s0, events) && After(s0, events).store == s0.store[k := x] && ErasesNext(After(s0, events), o, m, x)
  {
    var before := Replaces(s0, k, filter, x);
    events := Issues(s0, before, s0.store, k, x, m);
    o := |After(s0, events).ops| - 1;
  }

  /** The exception does happen. For every object of a loaded store, every filter that covers it alone,
      and every object `x` with as many parts and the same creation time, there is a run that lists the
      first, deletes it by the filter, creates `x` in its place, and in which the one deletion issued
      from the listing is about to erase `x`. */
  lemma RecreatedIsErased(store: map<Key, Object>, k: Key, filter: ObjectKey, x: Object)
    returns (events: seq<Event>, o: nat)
    requires WellStored(store) && k in store && OnlyMatch(Load(store), filter, k)
    requires |x.parts| == |store[k].parts| && x.parts[0].creationTime == store[k].parts[0].creationTime
    ensures Lists(Load(store), Listed(store, k)) && IsRun(Load(store), events)
    ensures After(Load(store), events).store == store[k := x]
    ensures ErasesNext(After(Load(store), events), o, Listed(store, k), x)
  {
    events, o := Recreates(Load(store), k, filter, x, Listed(store, k));
  }

  /** What the deletion of a listed object can erase, exactly: any object with as many parts and the
      same creation time. */
  lemma ErasableExactly(store: map<Key, Object>, k: Key, x: Object)
    requires WellStored(store) && k in store
    ensures CanErase(Load(store), Listed(store, k), x) <==>
      |x.parts| == |store[k].parts| && x.parts[0].creationTime == store[k].parts[0].creationTime
  {
    var s, m := Load(store), Listed(store, k);
    if events, o :| IsRun(s, events) && ErasesNext(After(s, events), o, m, x) {
      DeletionIsSafe(store, [], s, events, After(s, events), m, o);
    }
    if |x.parts| == |store[k].parts| && x.parts[0].creationTime == store[k].parts[0].creationTime {
      StoredKeyMatchesItself(k);
      var events, o := RecreatedIsErased(store, k, TryFrom(k).value, x);
      assert IsRun(s, events) && ErasesNext(After(s, events), o, m, x);
    }
  }

  /** For a listed object that is stale under both snapshots of a cycle: an object can be erased in its
      place only if it is itself stale under both. So it was made before `now`, by a clock that went
      back, unless both snapshots show its application as registered later than the grace period after
      `now`. */
  lemma ErasedIsStale(store: map<Key, Object>, k: Key, x: Object, first: Gc.ApplicationMap, second: Gc.ApplicationMap,
                      now: int)
    requires WellStored(store) && k in store && CanErase(Load(store), Listed(store, k), x)
    requires Gc.Stale(first, Listed(store, k), now) && Gc.Stale(second, Listed(store, k), now)
    requires Times64(first, now) && Times64(second, now)
    ensures x.parts != []
    ensures StaleAt(first, k, x.parts[0].creationTime, now) && StaleAt(second, k, x.parts[0].creationTime, now)
    ensures NotAhead(first, k, now) || NotAhead(second, k, now) ==> x.parts[0].creationTime < now
  {
    ErasableExactly(store, k, x);
    var c := x.parts[0].creationTime;
    if now <= c && NotAhead(first, k, now) { NewIsNotStale(first, k, c, now); }
    if now <= c && NotAhead(second, k, now) { NewIsNotStale(second, k, c, now); }
  }
}
