/** One cycle of the cache's garbage collector: it lists the objects, takes two snapshots of the
    applications, and deletes what is stale under both and still as it was listed. */
module GarbageCollector {
  import opened Wrappers
  import opened ObjectKeys

  const STALE_GRACE_MILLIS: int := 10_000
  const I64_MAX: int := 0x7fff_ffff_ffff_ffff
  const I64_MIN: int := -0x8000_0000_0000_0000

  function SaturatingAdd(a: int, b: int): int
  {
    if a + b > I64_MAX then I64_MAX else if a + b < I64_MIN then I64_MIN else a + b
  }

  datatype ApplicationState = Enabled | Disabled
  datatype Snapshot = Snapshot(state: ApplicationState, creationTime: int)
  type ApplicationMap = map<string, Snapshot>

  datatype StaleReason = PreviousApplication | MissingApplication

  /** What the metadata map says about an object. */
  datatype Metadata = Metadata(key: string, version: nat, creationTime: int)

  // ---- Reading the applications ----------------------------------------------------------

  datatype Status = Status(state: int, creationTime: int)
  datatype Application = Application(name: Option<string>, status: Option<Status>)

  predicate WellFormed(app: Application)
  {
    && app.name.Some? && app.name.value != ""
    && app.status.Some? && app.status.value.creationTime > 0
    && (app.status.value.state == 0 || app.status.value.state == 1)
  }

  /** An entry is usable exactly when it has a name, a positive time and one of the two states. */
  lemma WellFormedMeans(app: Application)
    ensures WellFormed(app) <==>
      match app
      case Application(Some(name), Some(Status(state, time))) => |name| > 0 && time >= 1 && 0 <= state <= 1
      case _ => false
  {
  }

  function SnapshotOf(status: Status): Snapshot
  {
    Snapshot(if status.state == 0 then Enabled else Disabled, status.creationTime)
  }

  predicate DistinctNames(apps: seq<Application>)
  {
    forall i, j :: 0 <= i < j < |apps| ==> apps[i].name != apps[j].name
  }

  /** The snapshot says of an application what its status says: 0 is enabled, 1 is disabled. */
  predicate Tells(x: Snapshot, status: Status)
  {
    && (x.state.Enabled? <==> status.state == 0) && (x.state.Disabled? <==> status.state == 1)
    && x.creationTime == status.creationTime
  }

  /** A listing is used only when every entry is complete and no name appears twice; it then maps
      exactly the listed names, each to its own state and time. */
  method ValidateApplications(apps: seq<Application>) returns (r: Result<ApplicationMap>)
    ensures r.Ok? <==> (forall i :: 0 <= i < |apps| ==> WellFormed(apps[i])) && DistinctNames(apps)
    ensures r.Ok? ==> forall i :: 0 <= i < |apps| ==>
      && WellFormed(apps[i]) && apps[i].name.value in r.value
      && Tells(r.value[apps[i].name.value], apps[i].status.value)
    ensures r.Ok? ==> forall name :: name in r.value ==> exists i :: 0 <= i < |apps| && apps[i].name == Some(name)
  {
    var result: ApplicationMap := map[];
    for n := 0 to |apps|
      invariant forall i :: 0 <= i < n ==> WellFormed(apps[i])
      invariant DistinctNames(apps[..n])
      invariant forall i :: 0 <= i < n ==>
        apps[i].name.value in result && Tells(result[apps[i].name.value], apps[i].status.value)
      invariant forall name :: name in result ==> exists i :: 0 <= i < n && apps[i].name == Some(name)
    {
      var app := apps[n];
      if app.name.None? || app.name.value == "" || app.status.None? || app.status.value.creationTime <= 0
         || (app.status.value.state != 0 && app.status.value.state != 1) {
        return Err;
      }
      var name := app.name.value;
      if name in result {
        ghost var i :| 0 <= i < n && apps[i].name == Some(name);
        return Err;
      }
      result := result[name := SnapshotOf(app.status.value)];
    }
    assert apps[..|apps|] == apps;
    r := Ok(result);
  }

  // ---- Which objects are stale -----------------------------------------------------------

  function ClassifyStale(app: Option<Snapshot>, created: int, now: int): Option<StaleReason>
  {
    match app
    case Some(Snapshot(Enabled, since)) =>
      if SaturatingAdd(created, STALE_GRACE_MILLIS) < since then Some(PreviousApplication) else None
    case Some(_) => None
    case None => if SaturatingAdd(created, STALE_GRACE_MILLIS) < now then Some(MissingApplication) else None
  }

  function Lookup(apps: ApplicationMap, name: string): Option<Snapshot>
  {
    if name in apps then Some(apps[name]) else None
  }

  /** An object with a readable key that is stale under a snapshot. */
  predicate Stale(apps: ApplicationMap, m: Metadata, now: int)
  {
    TryFrom(m.key).Ok? && ClassifyStale(Lookup(apps, TryFrom(m.key).value.app), m.creationTime, now).Some?
  }

  /** Stale means: no such application and the grace period is over, or an application enabled
      more than the grace period after the object was made. A disabled application keeps its
      objects. (The sum saturates only for times beyond what a 64-bit clock can exceed.) */
  lemma StaleMeans(apps: ApplicationMap, m: Metadata, now: int)
    requires TryFrom(m.key).Ok? && I64_MIN <= m.creationTime <= I64_MAX && now <= I64_MAX
    requires forall name :: name in apps ==> apps[name].creationTime <= I64_MAX
    ensures Stale(apps, m, now) <==>
      var name := TryFrom(m.key).value.app;
      if name in apps then apps[name].state.Enabled? && m.creationTime + STALE_GRACE_MILLIS < apps[name].creationTime
      else m.creationTime + STALE_GRACE_MILLIS < now
  {
  }

  // ---- The cycle -------------------------------------------------------------------------

  datatype Stats = Stats(candidates: nat, deleted: nat, failures: nat)

  /** What the cache answers to one compare-and-delete: done, the object is not as listed, or an
      error. */
  datatype CallResult = Removed | Changed | Refused

  /** How many of the first `n` calls were answered in this way. */
  function CountAnswers(answer: nat -> CallResult, n: nat, r: CallResult): nat
  {
    if n == 0 then 0 else CountAnswers(answer, n - 1, r) + (if answer(n - 1) == r then 1 else 0)
  }

  function CountStale(objects: seq<Metadata>, apps: ApplicationMap, now: int): nat
  {
    if objects == [] then 0
    else
      var n := |objects| - 1;
      CountStale(objects[..n], apps, now) + (if Stale(apps, objects[n], now) then 1 else 0)
  }

  /** The counts are numbers of calls and of listed objects. */
  lemma {:induction false} CountAnswersMeans(answer: nat -> CallResult, n: nat, r: CallResult)
    ensures CountAnswers(answer, n, r) == |set i: nat | i < n && answer(i) == r|
  {
    if n > 0 {
      CountAnswersMeans(answer, n - 1, r);
      var less := set i: nat | i < n - 1 && answer(i) == r;
      var all := set i: nat | i < n && answer(i) == r;
      assert all == if answer(n - 1) == r then less + {n - 1} else less;
    }
  }

  function StaleAmong(objects: seq<Metadata>, apps: ApplicationMap, now: int): set<int>
  {
    set i | 0 <= i < |objects| && Stale(apps, objects[i], now)
  }

  lemma StaleAmongMore(objects: seq<Metadata>, apps: ApplicationMap, now: int)
    requires objects != []
    ensures var n := |objects| - 1;
      StaleAmong(objects, apps, now) ==
      StaleAmong(objects[..n], apps, now) + (if Stale(apps, objects[n], now) then {n} else {})
  {
    var n := |objects| - 1;
    forall i | 0 <= i < n
      ensures i in StaleAmong(objects, apps, now) <==> i in StaleAmong(objects[..n], apps, now)
    {
      assert objects[..n][i] == objects[i];
    }
  }

  lemma {:induction false} CountStaleMeans(objects: seq<Metadata>, apps: ApplicationMap, now: int)
    ensures CountStale(objects, apps, now) == |StaleAmong(objects, apps, now)|
  {
    if objects != [] {
      CountStaleMeans(objects[..|objects| - 1], apps, now);
      StaleAmongMore(objects, apps, now);
    }
  }

  /** The key belongs to an application that the snapshot shows as disabled. */
  predicate KeptBy(apps: ApplicationMap, key: string)
  {
    TryFrom(key).Ok? && TryFrom(key).value.app in apps && apps[TryFrom(key).value.app].state.Disabled?
  }

  /** The listings may fail; `answer(i)` is what the cache answers to the i-th compare-and-delete,
      whatever other operations do meanwhile. `calls` are the compare-and-deletes issued. */
  method Reconcile(listing: Result<seq<Metadata>>, first: Result<ApplicationMap>, second: Result<ApplicationMap>,
                   now: int, answer: nat -> CallResult)
    returns (r: Result<Stats>, calls: seq<Metadata>)
    // A failed listing deletes nothing.
    ensures r.Err? ==> calls == []
    ensures r.Err? <==>
      (|| listing.Err?
       || (listing.value != [] && first.Err?)
       || (listing.value != [] && second.Err? && exists m :: m in listing.value && Stale(first.value, m, now)))
    // Deletes are issued for exactly the listed objects that are stale under both snapshots.
    ensures forall m :: m in calls <==>
      r.Ok? && first.Ok? && second.Ok? && m in listing.value && Stale(first.value, m, now) &&
        Stale(second.value, m, now)
    // None of them belongs to an application that either snapshot shows as disabled.
    ensures forall m :: m in calls ==> !KeptBy(first.value, m.key) && !KeptBy(second.value, m.key)
    ensures r.Ok? && first.Ok? ==> r.value.candidates == CountStale(listing.value, first.value, now)
    ensures r.Ok? ==> r.value.deleted == CountAnswers(answer, |calls|, Removed)
    ensures r.Ok? ==> r.value.failures == CountAnswers(answer, |calls|, Refused)
  {
    calls := [];
    if listing.Err? {
      return Err, [];
    }
    if listing.value == [] {
      return Ok(Stats(0, 0, 0)), [];
    }
    if first.Err? {
      return Err, [];
    }
    var candidates := Select(listing.value, first.value, now);
    var total := |candidates|;
    if candidates != [] {
      assert candidates[0] in listing.value && Stale(first.value, candidates[0], now);
      if second.Err? {
        return Err, [];
      }
      candidates := Select(candidates, second.value, now);
    }
    calls := candidates;
    var deleted, failures := 0, 0;
    for i := 0 to |calls|
      invariant deleted == CountAnswers(answer, i, Removed) && failures == CountAnswers(answer, i, Refused)
    {
      match answer(i)
      case Removed => deleted := deleted + 1;
      case Changed =>
      case Refused => failures := failures + 1;
    }
    r := Ok(Stats(total, deleted, failures));
  }

  /** The objects that are stale under a snapshot; unreadable keys are skipped. */
  method Select(objects: seq<Metadata>, apps: ApplicationMap, now: int) returns (stale: seq<Metadata>)
    ensures forall m :: m in stale <==> m in objects && Stale(apps, m, now)
    ensures |stale| == CountStale(objects, apps, now)
  {
    stale := [];
    for i := 0 to |objects|
      invariant forall m :: m in stale <==> m in objects[..i] && Stale(apps, m, now)
      invariant |stale| == CountStale(objects[..i], apps, now)
    {
      assert objects[..i + 1] == objects[..i] + [objects[i]];
      assert objects[..i + 1][..i] == objects[..i];
      match TryFrom(objects[i].key)
      case Err =>
      case Ok(key) =>
        if ClassifyStale(Lookup(apps, key.app), objects[i].creationTime, now).Some? {
          stale := stale + [objects[i]];
        }
    }
    assert objects[..|objects|] == objects;
  }

  // ---- The cycle, from the raw listings --------------------------------------------------

  predicate Usable(apps: seq<Application>)
  {
    (forall i :: 0 <= i < |apps| ==> WellFormed(apps[i])) && DistinctNames(apps)
  }

  predicate Named(app: Application, name: string) { app.name == Some(name) }

  /** Stale, said of a listing as it came: no entry names the object's application and the grace period
      is over, or the entry that does has state 0 and a time more than the grace period after the object. */
  predicate RawStale(apps: seq<Application>, m: Metadata, now: int)
    requires Usable(apps)
  {
    && TryFrom(m.key).Ok?
    && var name := TryFrom(m.key).value.app;
    && ((exists i :: 0 <= i < |apps| && Named(apps[i], name)) || m.creationTime + STALE_GRACE_MILLIS < now)
    && forall i :: 0 <= i < |apps| && Named(apps[i], name) ==>
         apps[i].status.value.state == 0 && m.creationTime + STALE_GRACE_MILLIS < apps[i].status.value.creationTime
  }

  predicate Times64(apps: seq<Application>)
  {
    forall i :: 0 <= i < |apps| && apps[i].status.Some? ==> apps[i].status.value.creationTime <= I64_MAX
  }

  predicate In64(m: Metadata, now: int) { now <= I64_MAX && I64_MIN <= m.creationTime <= I64_MAX }

  lemma StaleIsRaw(apps: seq<Application>, known: ApplicationMap, m: Metadata, now: int)
    requires Usable(apps) && Times64(apps) && In64(m, now)
    requires forall i :: 0 <= i < |apps| ==>
      apps[i].name.value in known && Tells(known[apps[i].name.value], apps[i].status.value)
    requires forall name :: name in known ==> exists i :: 0 <= i < |apps| && apps[i].name == Some(name)
    ensures Stale(known, m, now) <==> RawStale(apps, m, now)
  {
    if TryFrom(m.key).Ok? {
      var name := TryFrom(m.key).value.app;
      if name in known {
        var i :| 0 <= i < |apps| && apps[i].name == Some(name);
        assert Named(apps[i], name);
        forall j | 0 <= j < |apps| && Named(apps[j], name) ensures j == i { }
      } else {
        forall j | 0 <= j < |apps| ensures !Named(apps[j], name) { assert apps[j].name.value in known; }
      }
    }
  }

  predicate Listed(apps: Result<seq<Application>>) { apps.Ok? && Usable(apps.value) }

  /** The listing gives the application of the key with state 1. */
  predicate GivesDisabled(apps: Result<seq<Application>>, key: string)
  {
    && apps.Ok? && TryFrom(key).Ok?
    && exists i :: 0 <= i < |apps.value| && Named(apps.value[i], TryFrom(key).value.app)
         && apps.value[i].status.Some? && apps.value[i].status.value.state == 1
  }

  method ReadApplications(apps: Result<seq<Application>>) returns (r: Result<ApplicationMap>)
    ensures r.Ok? <==> Listed(apps)
    ensures r.Ok? && Times64(apps.value) ==> forall m: Metadata, now: int ::
      In64(m, now) ==> (Stale(r.value, m, now) <==> RawStale(apps.value, m, now))
  {
    if apps.Err? {
      return Err;
    }
    r := ValidateApplications(apps.value);
    if r.Ok? && Times64(apps.value) {
      forall m: Metadata, now: int | In64(m, now)
        ensures Stale(r.value, m, now) <==> RawStale(apps.value, m, now)
      {
        StaleIsRaw(apps.value, r.value, m, now);
      }
    }
  }

  /** A cycle from two listings of the applications as they came. Deletes are issued for exactly the
      listed objects that are stale by both of them; so none for an object whose application either of
      them gives with state 1. */
  method ReconcileListings(listing: Result<seq<Metadata>>, first: Result<seq<Application>>,
                           second: Result<seq<Application>>, now: int, answer: nat -> CallResult)
    returns (r: Result<Stats>, calls: seq<Metadata>)
    requires (first.Ok? ==> Times64(first.value)) && (second.Ok? ==> Times64(second.value))
    requires listing.Ok? ==> forall m :: m in listing.value ==> In64(m, now)
    ensures forall m :: m in calls <==>
      && listing.Ok? && m in listing.value && Listed(first) && Listed(second)
      && RawStale(first.value, m, now) && RawStale(second.value, m, now)
    ensures forall m :: m in calls ==> !GivesDisabled(first, m.key) && !GivesDisabled(second, m.key)
  {
    var a := ReadApplications(first);
    var b := ReadApplications(second);
    r, calls := Reconcile(listing, a, b, now, answer);
  }
}
