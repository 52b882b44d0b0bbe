/** What a collection cycle does to the cache, in every run of the cache protocol: between the
    listing, the compare and the storage call of each deletion, any other operations may step. */
module GcSafety {
  import opened ObjectKeys
  import opened CacheProtocol
  import opened CacheLocks
  import opened CacheHistory
  import opened CacheAgreement
  import opened CacheMetadata
  import Gc = GarbageCollector

  /** The listing read from the metadata map of a state. */
  predicate Lists(s: State, m: Gc.Metadata)
  {
    m.key in s.meta && s.meta[m.key].version == m.version && s.meta[m.key].creationTime == m.creationTime
  }

  /** The compare-and-delete that the collector issues for a listed object. */
  function CallFor(m: Gc.Metadata): Request { CompareAndDelete(m.key, m.version, m.creationTime) }

  // ---- When the puts of a key take their time --------------------------------------------

  /** A put of `k` made at time `c` that has passed its checks and is about to be stored. */
  predicate PutAt(t: Task, k: Key, c: int)
  {
    t.req.Put? && t.req.key == k && t.phase.Checked? && t.req.part.creationTime == c
  }

  /** The time that a put of `k` takes in this step: it does so once it has passed its checks. */
  function Stamp(s: State, e: Event, k: Key): set<int>
    requires Enabled(s, e)
  {
    if e.Check? && e.ok && s.ops[e.op].req.Put? && s.ops[e.op].req.key == k && k !in s.store
    then {s.ops[e.op].req.part.creationTime} else {}
  }

  /** The times that puts of `k` take in a run. */
  function Stamps(s: State, events: seq<Event>, k: Key): set<int>
    requires IsRun(s, events)
    decreases |events|
  {
    if events == [] then {} else Stamp(s, events[0], k) + Stamps(Apply(s, events[0]), events[1..], k)
  }

  /** No put made at time `c` is about to be stored, and an object made then is of an old creation. */
  predicate NoneFrom(s: State, k: Key, c: int, gen: nat)
  {
    && (forall o :: 0 <= o < |s.ops| ==> !PutAt(s.ops[o], k, c))
    && (k in s.store && s.store[k].parts != [] && s.store[k].parts[0].creationTime == c ==> Gen(s, k) == gen)
  }

  lemma OwnStamp(s: State, e: Event, k: Key, c: int)
    requires Enabled(s, e) && !e.Start? && !PutAt(s.ops[e.op], k, c) && c !in Stamp(s, e, k)
    ensures e.op < |Apply(s, e).ops| && !PutAt(Apply(s, e).ops[e.op], k, c)
  {
    match e
    case Write(o, ok) => WriteMoves(s, o, ok);
    case Record(o) => RecordMoves(s, o);
    case _ =>
  }

  lemma OneStamp(s: State, e: Event, k: Key, c: int, o: nat)
    requires Enabled(s, e) && o < |s.ops| && !PutAt(s.ops[o], k, c) && c !in Stamp(s, e, k)
    ensures o < |Apply(s, e).ops| && !PutAt(Apply(s, e).ops[o], k, c)
  {
    if e.Start? || e.op != o { OthersUntouched(s, e, o); } else { OwnStamp(s, e, k, c); }
  }

  lemma OpsAfter(s: State, e: Event)
    requires Enabled(s, e)
    ensures |Apply(s, e).ops| == if e.Start? then |s.ops| + 1 else |s.ops|
  {
    match e
    case Write(o, ok) => WriteMoves(s, o, ok);
    case Record(o) => RecordMoves(s, o);
    case _ =>
  }

  lemma StampsAreTaken(s: State, e: Event, k: Key, c: int)
    requires Enabled(s, e) && (forall o :: 0 <= o < |s.ops| ==> !PutAt(s.ops[o], k, c)) && c !in Stamp(s, e, k)
    ensures var t := Apply(s, e); forall o :: 0 <= o < |t.ops| ==> !PutAt(t.ops[o], k, c)
  {
    var t := Apply(s, e);
    OpsAfter(s, e);
    forall o | 0 <= o < |t.ops| ensures !PutAt(t.ops[o], k, c) {
      if o < |s.ops| { OneStamp(s, e, k, c, o); }
    }
  }

  /** The first part of an object is the one its put wrote. */
  lemma WriteNoneFrom(s: State, o: nat, ok: bool, k: Key, c: int, gen: nat)
    requires HistoryInv(s) && Enabled(s, Write(o, ok)) && NoneFrom(s, k, c, gen)
    ensures var t := ApplyWrite(s, o, ok);
      k in t.store && t.store[k].parts != [] && t.store[k].parts[0].creationTime == c ==> Gen(t, k) == gen
  {
    assert KeyHistory(s, k) && !PutAt(s.ops[o], k, c);
    if !(s.ops[o].req.Put? && s.ops[o].req.key == k) {
      WriteGrows(s, o, ok, k);
      WriteGen(s, o, ok, k);
    }
  }

  lemma WriteGen(s: State, o: nat, ok: bool, k: Key)
    requires o < |s.ops| && !(s.ops[o].req.Put? && s.ops[o].req.key == k)
    ensures Gen(ApplyWrite(s, o, ok), k) == Gen(s, k)
  {
  }

  lemma NoneFromStep(s: State, e: Event, k: Key, c: int, gen: nat)
    requires HistoryInv(s) && Enabled(s, e) && NoneFrom(s, k, c, gen) && c !in Stamp(s, e, k)
    ensures NoneFrom(Apply(s, e), k, c, gen)
  {
    StampsAreTaken(s, e, k, c);
    if e.Write? { WriteNoneFrom(s, e.op, e.ok, k, c, gen); } else { StoreKept(s, e); }
  }

  lemma {:induction false} RunNoneFrom(s: State, events: seq<Event>, k: Key, c: int, gen: nat)
    requires HistoryInv(s) && IsRun(s, events) && NoneFrom(s, k, c, gen) && c !in Stamps(s, events, k)
    ensures NoneFrom(After(s, events), k, c, gen)
    decreases |events|
  {
    if events != [] {
      NoneFromStep(s, events[0], k, c, gen);
      HistoryStep(s, events[0]);
      RunNoneFrom(Apply(s, events[0]), events[1..], k, c, gen);
    }
  }

  /** While a key is in metadata, no put of it is past its look at metadata. So a put that is stored
      after a listing took its time after the listing. */
  lemma ListedMeansNoPut(s: State, m: Gc.Metadata)
    requires TrueInv(s) && Lists(s, m)
    ensures NoneFrom(s, m.key, m.creationTime, Gen(s, m.key))
  {
    forall o | 0 <= o < |s.ops| ensures !PutAt(s.ops[o], m.key, m.creationTime) { assert TaskTrue(s, s.ops[o]); }
  }

  // ---- One deletion ----------------------------------------------------------------------

  /** What is stored now, if anything, is what was stored then. */
  predicate Unchanged(s: State, t: State, k: Key) { k in t.store ==> k in s.store && t.store[k] == s.store[k] }

  /** In every run: list at any point `s`, go on in any way to `t`, and let a deletion issued from that
      listing reach its storage call. It erases its own key only, and an object with the listed number
      of parts and creation time. That object is the listed one, part for part, if no put of the key
      took that very time since the listing, or if none was stored since. */
  lemma DeletionIsSafe(store: map<Key, Object>, before: seq<Event>, s: State, after: seq<Event>, t: State,
                       m: Gc.Metadata, o: nat)
    requires WellStored(store) && IsRun(Load(store), before) && s == After(Load(store), before)
    requires Lists(s, m) && IsRun(s, after) && t == After(s, after)
    requires Enabled(t, Write(o, true)) && t.ops[o].req == CallFor(m)
    ensures ApplyWrite(t, o, true).store == t.store - {m.key} && AsExpected(t, m.key, m.version, m.creationTime)
    ensures m.creationTime !in Stamps(s, after, m.key) ==> Unchanged(s, t, m.key)
    ensures Gen(t, m.key) == Gen(s, m.key) ==> Unchanged(s, t, m.key)
  {
    LoadedTrue(store);
    RunKeepsTrue(Load(store), before);
    RunKeepsTrue(s, after);
    ErasesAsExpected(t, o);
    RunGrows(s, after, m.key);
    if m.creationTime !in Stamps(s, after, m.key) {
      ListedMeansNoPut(s, m);
      RunNoneFrom(s, after, m.key, m.creationTime, Gen(s, m.key));
    }
    SameCreation(s, t, m);
  }

  /** An object that only grew since it was listed and has as many parts as listed has not grown. */
  lemma SameCreation(s: State, t: State, m: Gc.Metadata)
    requires TrueInv(s) && Lists(s, m) && Grew(s, t, m.key) && AsExpected(t, m.key, m.version, m.creationTime)
    ensures Gen(t, m.key) == Gen(s, m.key) ==> Unchanged(s, t, m.key)
  {
    if m.key in t.store && Gen(t, m.key) == Gen(s, m.key) {
      DescribesKey(s, m.key);
      assert s.store[m.key].parts == t.store[m.key].parts;
    }
  }

  // ---- A cycle ---------------------------------------------------------------------------

  /** An object of this key made at this time would itself be stale under the snapshot. */
  predicate StaleAt(apps: Gc.ApplicationMap, key: Key, time: int, now: int)
  {
    Gc.Stale(apps, Gc.Metadata(key, 1, time), now)
  }

  /** The application of the key is not registered later than the grace period after `now`. */
  predicate NotAhead(apps: Gc.ApplicationMap, key: Key, now: int)
  {
    TryFrom(key).Ok? && TryFrom(key).value.app in apps ==>
      apps[TryFrom(key).value.app].creationTime <= now + Gc.STALE_GRACE_MILLIS
  }

  predicate Times64(apps: Gc.ApplicationMap, now: int)
  {
    now <= Gc.I64_MAX && forall name :: name in apps ==> apps[name].creationTime <= Gc.I64_MAX
  }

  /** Every put of the key in a run makes an object that one of two snapshots does not show as stale. */
  predicate PutsNotStale(s: State, events: seq<Event>, key: Key, first: Gc.ApplicationMap, second: Gc.ApplicationMap,
                         now: int)
    requires IsRun(s, events)
  {
    forall c :: c in Stamps(s, events, key) ==> !StaleAt(first, key, c, now) || !StaleAt(second, key, c, now)
  }

  /** The clock does not go back behind `now` when a put of the key takes its time. */
  predicate PutsNotBefore(s: State, events: seq<Event>, key: Key, now: int)
    requires IsRun(s, events)
  {
    forall c :: c in Stamps(s, events, key) ==> now <= c
  }

  /** Nothing made from `now` on is stale at `now`, unless its application is that far ahead. */
  lemma NewIsNotStale(apps: Gc.ApplicationMap, key: Key, time: int, now: int)
    requires Times64(apps, now) && NotAhead(apps, key, now) && now <= time
    ensures !StaleAt(apps, key, time, now)
  {
  }

  lemma GraceCovers(s: State, events: seq<Event>, key: Key, first: Gc.ApplicationMap, second: Gc.ApplicationMap,
                    now: int)
    requires IsRun(s, events) && Times64(first, now) && Times64(second, now)
    requires PutsNotBefore(s, events, key, now) && (NotAhead(first, key, now) || NotAhead(second, key, now))
    ensures PutsNotStale(s, events, key, first, second, now)
  {
    var apps := if NotAhead(first, key, now) then first else second;
    forall c | c in Stamps(s, events, key) ensures !StaleAt(apps, key, c, now) { NewIsNotStale(apps, key, c, now); }
  }

  /** A whole cycle. `listing` was read from the metadata map of `s`; `calls` are the deletions the
      collector issues for it under two application snapshots. Whatever happens then, each of them
      erases its own key only, for an object listed, stale under both snapshots, and of no application
      that either snapshot shows as disabled. What it erases is the listed object, part for part, if
      every put of the key since the listing made an object that one of the snapshots does not show as
      stale. The grace period sees to that as long as the clock did not go back behind `now` and one
      snapshot does not show the application as registered later than the grace period after `now`. */
  lemma CycleIsSafe(store: map<Key, Object>, before: seq<Event>, s: State, after: seq<Event>, t: State,
                    listing: seq<Gc.Metadata>, first: Gc.ApplicationMap, second: Gc.ApplicationMap, now: int,
                    calls: seq<Gc.Metadata>, m: Gc.Metadata, o: nat)
    requires WellStored(store) && IsRun(Load(store), before) && s == After(Load(store), before)
    requires IsRun(s, after) && t == After(s, after)
    requires forall x :: x in listing ==> Lists(s, x)
    requires forall x :: x in calls <==> x in listing && Gc.Stale(first, x, now) && Gc.Stale(second, x, now)
    requires m in calls && Enabled(t, Write(o, true)) && t.ops[o].req == CallFor(m)
    requires Times64(first, now) && Times64(second, now)
    ensures ApplyWrite(t, o, true).store == t.store - {m.key} && AsExpected(t, m.key, m.version, m.creationTime)
    ensures Gc.Stale(first, m, now) && Gc.Stale(second, m, now)
    ensures !Gc.KeptBy(first, m.key) && !Gc.KeptBy(second, m.key)
    ensures PutsNotStale(s, after, m.key, first, second, now) ==> Unchanged(s, t, m.key)
    ensures PutsNotBefore(s, after, m.key, now) && (NotAhead(first, m.key, now) || NotAhead(second, m.key, now)) ==>
      Unchanged(s, t, m.key)
  {
    DeletionIsSafe(store, before, s, after, t, m, o);
    assert StaleAt(first, m.key, m.creationTime, now) && StaleAt(second, m.key, m.creationTime, now);
    if PutsNotBefore(s, after, m.key, now) && (NotAhead(first, m.key, now) || NotAhead(second, m.key, now)) {
      GraceCovers(s, after, m.key, first, second, now);
    }
  }

  /** No step of a deletion touches another key of the store or of the metadata map. */
  lemma DeletionKeepsOthers(store: map<Key, Object>, events: seq<Event>, t: State, e: Event)
    requires WellStored(store) && IsRun(Load(store), events) && t == After(Load(store), events)
    requires Enabled(t, e) && !e.Start? && t.ops[e.op].req.CompareAndDelete?
    ensures Apply(t, e).store == t.store || Apply(t, e).store == t.store - {t.ops[e.op].req.key}
    ensures Apply(t, e).meta == t.meta || Apply(t, e).meta == t.meta - {t.ops[e.op].req.key}
  {
    LoadedTrue(store);
    RunKeepsTrue(Load(store), events);
    if e.Write? {
      WriteMetaKept(t, e.op, e.ok);
      if e.ok { ErasesAsExpected(t, e.op); }
    } else {
      StoreKept(t, e);
      if !e.Record? { RequestsKept(t, e); }
    }
  }
}
