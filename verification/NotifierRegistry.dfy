/** When the notification registry holds a channel: exactly, from the calls alone. */
module NotifierRegistry {
  import opened Notifier

  /** What one call means for a key that was or was not registered: a subscribe registers it, a removal
      does not leave it, and a cleanup of one of its subscriptions leaves it only while somebody is
      tuned to it. */
  predicate StaysRegistered(was: bool, ws: seq<Watch>, e: Event, k: Key)
  {
    match e
    case Subscribe(key) => key == k || was
    case Remove(key) => key != k && was
    case Cleanup(i) => was && (i < |ws| && ws[i].key == k ==> HasTuned(ws, k))
    case _ => was
  }

  /** From the calls alone: is the key registered? */
  predicate Registered(es: seq<Event>, k: Key)
  {
    es != [] && StaysRegistered(Registered(es[..|es| - 1], k), Watches(es[..|es| - 1]), es[|es| - 1], k)
  }

  /** A registered channel has a live receiver exactly when somebody is tuned to its key. */
  lemma WatchedIsTuned(s: State, ws: seq<Watch>, k: Key)
    requires Inv(s) && Refines(s, ws) && k in s.channels
    ensures Watched(s.subs, s.channels[k]) <==> HasTuned(ws, k)
  {
    if Watched(s.subs, s.channels[k]) {
      var i :| 0 <= i < |s.subs| && Listens(s.subs[i], s.channels[k]);
      assert SubOk(s, i) && Mirrors(s, s.subs[i], ws[i]);
      assert Tuned(ws[i], k);
    }
    if HasTuned(ws, k) {
      var i :| 0 <= i < |ws| && Tuned(ws[i], k);
      assert Mirrors(s, s.subs[i], ws[i]);
      assert Listens(s.subs[i], s.channels[k]);
    }
  }

  /** In every interleaving: exactly the registered keys have a channel, and it has a live receiver
      exactly when somebody is tuned to the key. So a channel without receivers is in the registry
      exactly when its key is registered and nobody is tuned to it. */
  lemma {:induction false} RegisteredExactly(es: seq<Event>, k: Key)
    requires IsRun(es)
    ensures k in After(es).channels <==> Registered(es, k)
    ensures k in After(es).channels ==> (Watched(After(es).subs, After(es).channels[k]) <==> HasTuned(Watches(es), k))
  {
    RunKeeps(es);
    RunRefines(es);
    if k in After(es).channels { WatchedIsTuned(After(es), Watches(es), k); }
    if es != [] {
      var before := es[..|es| - 1];
      RegisteredExactly(before, k);
      RunRefines(before);
      RunKeeps(before);
      RegisteredStep(After(before), Watches(before), es[|es| - 1], k);
    }
  }

  lemma RegisteredStep(s: State, ws: seq<Watch>, e: Event, k: Key)
    requires Inv(s) && Enabled(s, e) && Refines(s, ws)
    ensures k in Apply(s, e).channels <==> StaysRegistered(k in s.channels, ws, e, k)
  {
    if k in s.channels { WatchedIsTuned(s, ws, k); }
    if e.Cleanup? { assert Mirrors(s, s.subs[e.i], ws[e.i]); }
  }

  /** A subscribe and the first half of its drop. */
  function DropBegun(k: Key): seq<Event> { [Event.Subscribe(k), Event.Release(0)] }

  /** A channel does stay registered without receivers, for every key. */
  lemma ReleasedStaysRegistered(k: Key)
    ensures IsRun(DropBegun(k)) && k in After(DropBegun(k)).channels
    ensures !Watched(After(DropBegun(k)).subs, After(DropBegun(k)).channels[k])
  {
    var one := [Event.Subscribe(k)];
    assert one[..0] == [] && DropBegun(k)[..1] == one;
    assert IsRun([]) && IsRun(one) && After(one) == State(map[k := 0], [Sub(k, 0, Live, [])], 1);
    assert After(DropBegun(k)) == State(map[k := 0], [Sub(k, 0, Released, [])], 1);
  }
}
