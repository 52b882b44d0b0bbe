/** Keyed notification fanout. Channels are made by the first subscriber of a key and removed by
    `remove` or by the last subscriber's drop, which releases its receiver before it takes the lock
    to clean up. Every step under the lock is one event, and events come in any order. */
module Notifier {

  type Key = string
  type Value = nat

  /** A subscription: its receiver is released first, then its drop cleans up. */
  datatype Phase = Live | Released | Cleaned
  datatype Sub = Sub(key: Key, chan: nat, phase: Phase, inbox: seq<Value>)

  /** `next` is the identity of the next channel to be made. */
  datatype State = State(channels: map<Key, nat>, subs: seq<Sub>, next: nat)

  datatype Event =
    | Subscribe(key: Key)
    | Notify(key: Key, value: Value)
    | Remove(key: Key)
    | Release(i: nat)
    | Cleanup(i: nat)

  predicate Enabled(s: State, e: Event)
  {
    match e
    case Release(i) => i < |s.subs| && s.subs[i].phase == Live
    case Cleanup(i) => i < |s.subs| && s.subs[i].phase == Released
    case _ => true
  }

  predicate Listens(sub: Sub, chan: nat) { sub.phase == Live && sub.chan == chan }

  /** The channel has a live receiver. */
  predicate Watched(subs: seq<Sub>, chan: nat) { exists i :: 0 <= i < |subs| && Listens(subs[i], chan) }

  function Sent(subs: seq<Sub>, chan: nat, v: Value): (r: seq<Sub>)
    ensures |r| == |subs|
    ensures forall i :: 0 <= i < |subs| ==>
      r[i] == if Listens(subs[i], chan) then subs[i].(inbox := subs[i].inbox + [v]) else subs[i]
  {
    seq(|subs|, i requires 0 <= i < |subs| =>
      if Listens(subs[i], chan) then subs[i].(inbox := subs[i].inbox + [v]) else subs[i])
  }

  function Apply(s: State, e: Event): State
    requires Enabled(s, e)
  {
    match e
    case Subscribe(k) =>
      if k in s.channels then s.(subs := s.subs + [Sub(k, s.channels[k], Live, [])])
      else State(s.channels[k := s.next], s.subs + [Sub(k, s.next, Live, [])], s.next + 1)
    case Notify(k, v) => if k in s.channels then s.(subs := Sent(s.subs, s.channels[k], v)) else s
    case Remove(k) => s.(channels := s.channels - {k})
    case Release(i) => s.(subs := s.subs[i := s.subs[i].(phase := Released)])
    case Cleanup(i) =>
      var k := s.subs[i].key;
      s.(channels := if k in s.channels && !Watched(s.subs, s.channels[k]) then s.channels - {k} else s.channels,
         subs := s.subs[i := s.subs[i].(phase := Cleaned)])
  }

  const START := State(map[], [], 0)

  predicate IsRun(es: seq<Event>)
    decreases |es|, 0
  {
    es == [] || (IsRun(es[..|es| - 1]) && Enabled(After(es[..|es| - 1]), es[|es| - 1]))
  }

  function After(es: seq<Event>): State
    requires IsRun(es)
    decreases |es|, 1
  {
    if es == [] then START else Apply(After(es[..|es| - 1]), es[|es| - 1])
  }

  // ---- The registry invariant ------------------------------------------------------------

  /** The subscription has not finished dropping and belongs to this channel. */
  predicate Holds(sub: Sub, chan: nat) { sub.chan == chan && sub.phase != Cleaned }

  /** A registered channel still has a subscription that is live or whose drop is not finished. */
  ghost predicate ChanOk(s: State, k: Key)
  {
    k in s.channels ==> s.channels[k] < s.next && exists i :: 0 <= i < |s.subs| && Holds(s.subs[i], s.channels[k])
  }

  /** A subscription's channel is old enough and is registered under no other key. */
  ghost predicate SubOk(s: State, i: nat)
    requires i < |s.subs|
  {
    s.subs[i].chan < s.next && forall k :: k in s.channels && s.channels[k] == s.subs[i].chan ==> k == s.subs[i].key
  }

  ghost predicate Inv(s: State)
  {
    (forall k :: ChanOk(s, k)) && (forall i :: 0 <= i < |s.subs| ==> SubOk(s, i))
  }

  /** No channel is registered under two keys, and none is as new as the next one. */
  lemma SameChannel(s: State, k: Key, l: Key)
    requires Inv(s)
    ensures k in s.channels ==> s.channels[k] < s.next
    ensures k in s.channels && l in s.channels && s.channels[k] == s.channels[l] ==> k == l
  {
    assert ChanOk(s, k);
    if k in s.channels && l in s.channels {
      var j :| 0 <= j < |s.subs| && Holds(s.subs[j], s.channels[k]);
      assert SubOk(s, j);
    }
  }

  lemma SubscribeKeeps(s: State, key: Key)
    requires Inv(s)
    ensures Inv(Apply(s, Subscribe(key)))
  {
    var t := Apply(s, Subscribe(key));
    var n := |s.subs|;
    forall k ensures ChanOk(t, k) {
      assert ChanOk(s, k);
      if k in s.channels {
        var i :| 0 <= i < n && Holds(s.subs[i], s.channels[k]);
        assert t.subs[i] == s.subs[i];
      } else if k == key {
        assert Holds(t.subs[n], t.channels[k]);
      }
    }
    forall i | 0 <= i < |t.subs| ensures SubOk(t, i) {
      assert ChanOk(s, key);
      if i < n {
        assert SubOk(s, i);
      } else {
        forall k | k in t.channels && t.channels[k] == t.subs[n].chan ensures k == key {
          SameChannel(s, k, key);
        }
      }
    }
  }

  lemma NotifyKeeps(s: State, key: Key, v: Value)
    requires Inv(s)
    ensures Inv(Apply(s, Notify(key, v)))
  {
    var t := Apply(s, Notify(key, v));
    forall k ensures ChanOk(t, k) {
      assert ChanOk(s, k);
      if k in s.channels {
        var i :| 0 <= i < |s.subs| && Holds(s.subs[i], s.channels[k]);
        assert Holds(t.subs[i], t.channels[k]);
      }
    }
    forall i | 0 <= i < |t.subs| ensures SubOk(t, i) { assert SubOk(s, i); }
  }

  lemma RemoveKeeps(s: State, key: Key)
    requires Inv(s)
    ensures Inv(Apply(s, Remove(key)))
  {
    var t := Apply(s, Remove(key));
    forall k ensures ChanOk(t, k) { assert ChanOk(s, k); }
    forall i | 0 <= i < |t.subs| ensures SubOk(t, i) { assert SubOk(s, i); }
  }

  lemma ReleaseKeeps(s: State, r: nat)
    requires Inv(s) && Enabled(s, Release(r))
    ensures Inv(Apply(s, Release(r)))
  {
    var t := Apply(s, Release(r));
    forall k ensures ChanOk(t, k) {
      assert ChanOk(s, k);
      if k in s.channels {
        var i :| 0 <= i < |s.subs| && Holds(s.subs[i], s.channels[k]);
        assert Holds(t.subs[i], t.channels[k]);
      }
    }
    forall i | 0 <= i < |t.subs| ensures SubOk(t, i) { assert SubOk(s, i); }
  }

  /** The channel that stays registered under `k` keeps a holder when subscription `c` is done:
      if the holder is `c` itself, the channel is watched and its watcher holds it. */
  lemma CleanupHolder(s: State, c: nat, k: Key)
    requires Inv(s) && Enabled(s, Cleanup(c))
    ensures ChanOk(Apply(s, Cleanup(c)), k)
  {
    var t := Apply(s, Cleanup(c));
    assert ChanOk(s, k);
    if k in t.channels {
      var i :| 0 <= i < |s.subs| && Holds(s.subs[i], s.channels[k]);
      assert SubOk(s, c);
      if i == c {
        var w :| 0 <= w < |s.subs| && Listens(s.subs[w], s.channels[k]);
        assert Holds(t.subs[w], t.channels[k]);
      } else {
        assert Holds(t.subs[i], t.channels[k]);
      }
    }
  }

  lemma CleanupKeeps(s: State, c: nat)
    requires Inv(s) && Enabled(s, Cleanup(c))
    ensures Inv(Apply(s, Cleanup(c)))
  {
    var t := Apply(s, Cleanup(c));
    forall k ensures ChanOk(t, k) { CleanupHolder(s, c, k); }
    forall i | 0 <= i < |t.subs| ensures SubOk(t, i) { assert SubOk(s, i); }
  }

  lemma StepKeeps(s: State, e: Event)
    requires Inv(s) && Enabled(s, e)
    ensures Inv(Apply(s, e))
  {
    match e
    case Subscribe(k) => SubscribeKeeps(s, k);
    case Notify(k, v) => NotifyKeeps(s, k, v);
    case Remove(k) => RemoveKeeps(s, k);
    case Release(i) => ReleaseKeeps(s, i);
    case Cleanup(i) => CleanupKeeps(s, i);
  }

  lemma {:induction false} RunKeeps(es: seq<Event>)
    requires IsRun(es)
    ensures Inv(After(es))
  {
    if es != [] {
      RunKeeps(es[..|es| - 1]);
      StepKeeps(After(es[..|es| - 1]), es[|es| - 1]);
    }
  }

  /** A drop of a subscription of this very channel has released its receiver and not cleaned up. */
  ghost predicate DropPending(s: State, chan: nat)
  {
    exists i :: 0 <= i < |s.subs| && s.subs[i].chan == chan && s.subs[i].phase == Released
  }

  /** In every interleaving, a registered channel has a live receiver or is about to be cleaned up
      by one of its own subscriptions. */
  lemma RegisteredMeansWatched(es: seq<Event>, k: Key)
    requires IsRun(es) && k in After(es).channels
    ensures Watched(After(es).subs, After(es).channels[k]) || DropPending(After(es), After(es).channels[k])
  {
    var s := After(es);
    RunKeeps(es);
    assert ChanOk(s, k);
    var i :| 0 <= i < |s.subs| && Holds(s.subs[i], s.channels[k]);
    if s.subs[i].phase == Live { assert Listens(s.subs[i], s.channels[k]); }
  }

  // ---- What subscribers see --------------------------------------------------------------

  /** A subscription without channels: whether it is live, whether its key was not removed since
      it was made, and what it has received. */
  datatype Watch = Watch(key: Key, live: bool, current: bool, heard: seq<Value>)

  predicate Tuned(w: Watch, k: Key) { w.key == k && w.live && w.current }

  predicate HasTuned(ws: seq<Watch>, k: Key) { exists i :: 0 <= i < |ws| && Tuned(ws[i], k) }

  /** What one call means to subscription `i`. */
  function Hear(w: Watch, e: Event, i: nat): Watch
  {
    match e
    case Notify(k, v) => if Tuned(w, k) then w.(heard := w.heard + [v]) else w
    case Remove(k) => if w.key == k then w.(current := false) else w
    case Release(r) => if r == i then w.(live := false) else w
    case _ => w
  }

  function Tell(ws: seq<Watch>, e: Event): seq<Watch>
  {
    var told := seq(|ws|, i requires 0 <= i < |ws| => Hear(ws[i], e, i));
    if e.Subscribe? then told + [Watch(e.key, true, true, [])] else told
  }

  function Watches(es: seq<Event>): seq<Watch>
  {
    if es == [] then [] else Tell(Watches(es[..|es| - 1]), es[|es| - 1])
  }

  /** The subscription is on the channel that `notify` uses for its key. */
  predicate OnRegistered(s: State, sub: Sub) { sub.key in s.channels && s.channels[sub.key] == sub.chan }

  /** The registry's subscription is the plain one: while live, it is on the channel that `notify`
      uses exactly when it is current. */
  predicate Mirrors(s: State, sub: Sub, w: Watch)
  {
    && sub.key == w.key && sub.inbox == w.heard
    && (sub.phase == Live <==> w.live)
    && (w.live ==> (w.current <==> OnRegistered(s, sub)))
  }

  ghost predicate Refines(s: State, ws: seq<Watch>)
  {
    |s.subs| == |ws| && forall i :: 0 <= i < |ws| ==> Mirrors(s, s.subs[i], ws[i])
  }

  lemma SubscribeRefines(s: State, ws: seq<Watch>, key: Key)
    requires Inv(s) && Refines(s, ws)
    ensures Refines(Apply(s, Subscribe(key)), Tell(ws, Subscribe(key)))
  {
    var t, us := Apply(s, Subscribe(key)), Tell(ws, Subscribe(key));
    forall i | 0 <= i < |us| ensures Mirrors(t, t.subs[i], us[i]) {
      if i < |ws| {
        assert Mirrors(s, s.subs[i], ws[i]);
        assert SubOk(s, i);
      }
    }
  }

  lemma NotifyRefines(s: State, ws: seq<Watch>, key: Key, v: Value)
    requires Inv(s) && Refines(s, ws)
    ensures Refines(Apply(s, Notify(key, v)), Tell(ws, Notify(key, v)))
  {
    var t, us := Apply(s, Notify(key, v)), Tell(ws, Notify(key, v));
    forall i | 0 <= i < |us| ensures Mirrors(t, t.subs[i], us[i]) {
      assert Mirrors(s, s.subs[i], ws[i]);
      assert SubOk(s, i);
    }
  }

  lemma RemoveRefines(s: State, ws: seq<Watch>, key: Key)
    requires Inv(s) && Refines(s, ws)
    ensures Refines(Apply(s, Remove(key)), Tell(ws, Remove(key)))
  {
    var t, us := Apply(s, Remove(key)), Tell(ws, Remove(key));
    forall i | 0 <= i < |us| ensures Mirrors(t, t.subs[i], us[i]) {
      assert Mirrors(s, s.subs[i], ws[i]);
    }
  }

  lemma ReleaseRefines(s: State, ws: seq<Watch>, r: nat)
    requires Inv(s) && Refines(s, ws) && Enabled(s, Release(r))
    ensures Refines(Apply(s, Release(r)), Tell(ws, Release(r)))
  {
    var t, us := Apply(s, Release(r)), Tell(ws, Release(r));
    forall i | 0 <= i < |us| ensures Mirrors(t, t.subs[i], us[i]) {
      assert Mirrors(s, s.subs[i], ws[i]);
    }
  }

  /** Cleaning up changes nothing that a live subscription can see, whatever replaced the channel. */
  lemma CleanupRefines(s: State, ws: seq<Watch>, c: nat)
    requires Inv(s) && Refines(s, ws) && Enabled(s, Cleanup(c))
    ensures Refines(Apply(s, Cleanup(c)), Tell(ws, Cleanup(c)))
  {
    var t := Apply(s, Cleanup(c));
    forall i | 0 <= i < |ws| ensures Mirrors(t, t.subs[i], ws[i]) {
      assert Mirrors(s, s.subs[i], ws[i]);
      if s.subs[i].phase == Live { assert Listens(s.subs[i], s.subs[i].chan); }
    }
  }

  lemma {:induction false} RunRefines(es: seq<Event>)
    requires IsRun(es)
    ensures Refines(After(es), Watches(es))
  {
    if es != [] {
      var front := es[..|es| - 1];
      var s, ws := After(front), Watches(front);
      RunRefines(front);
      RunKeeps(front);
      match es[|es| - 1]
      case Subscribe(k) => SubscribeRefines(s, ws, k);
      case Notify(k, v) => NotifyRefines(s, ws, k, v);
      case Remove(k) => RemoveRefines(s, ws, k);
      case Release(i) => ReleaseRefines(s, ws, i);
      case Cleanup(i) => CleanupRefines(s, ws, i);
    }
  }

  /** A live subscription whose key was not removed since it was made is on the channel that
      `notify` uses, and no other live subscription is; each has received exactly what the plain
      account says. */
  lemma LiveMeansAttached(es: seq<Event>, i: nat)
    requires IsRun(es) && i < |After(es).subs|
    ensures i < |Watches(es)|
    ensures var s, w := After(es), Watches(es)[i];
      && s.subs[i].inbox == w.heard
      && (w.live && w.current <==> s.subs[i].phase == Live && OnRegistered(s, s.subs[i]))
  {
    RunRefines(es);
    assert Mirrors(After(es), After(es).subs[i], Watches(es)[i]);
  }

  /** With no drop under way, exactly the keys with a live and current subscription are registered. */
  lemma QuietRegistry(es: seq<Event>, k: Key)
    requires IsRun(es) && forall i :: 0 <= i < |After(es).subs| ==> After(es).subs[i].phase != Released
    ensures k in After(es).channels <==> HasTuned(Watches(es), k)
  {
    var s, ws := After(es), Watches(es);
    RunRefines(es);
    RunKeeps(es);
    if k in s.channels {
      assert ChanOk(s, k);
      var i :| 0 <= i < |s.subs| && Holds(s.subs[i], s.channels[k]);
      assert SubOk(s, i) && Mirrors(s, s.subs[i], ws[i]);
      assert Tuned(ws[i], k);
    }
    if HasTuned(ws, k) {
      var i :| 0 <= i < |ws| && Tuned(ws[i], k);
      assert Mirrors(s, s.subs[i], ws[i]);
    }
  }

  // ---- What one subscription has received ------------------------------------------------

  function Values(es: seq<Event>, k: Key): seq<Value>
  {
    if es == [] then []
    else
      var e := es[|es| - 1];
      var front := Values(es[..|es| - 1], k);
      if e.Notify? && e.key == k then front + [e.value] else front
  }

  /** Where subscription `i` begins: just behind the call that made it. */
  function Begin(es: seq<Event>, i: nat): (at: nat)
    requires i < |Watches(es)|
    ensures at <= |es|
  {
    if i < |Watches(es[..|es| - 1])| then Begin(es[..|es| - 1], i) else |es|
  }

  /** Where it ends: at the first removal of its key or release of its receiver. */
  function End(es: seq<Event>, from: nat, k: Key, i: nat): (at: nat)
    requires from <= |es|
    ensures from <= at <= |es|
    decreases |es| - from
  {
    if from == |es| || es[from] == Remove(k) || es[from] == Release(i) then from else End(es, from + 1, k, i)
  }

  lemma {:induction false} EndSnoc(es: seq<Event>, e: Event, from: nat, k: Key, i: nat)
    requires from <= |es|
    ensures var was := End(es, from, k, i);
      End(es + [e], from, k, i) == if was == |es| && e != Remove(k) && e != Release(i) then |es| + 1 else was
    decreases |es| - from
  {
    if from < |es| {
      if es[from] != Remove(k) && es[from] != Release(i) { EndSnoc(es, e, from + 1, k, i); }
    } else if e != Remove(k) && e != Release(i) {
      assert End(es + [e], from + 1, k, i) == |es| + 1;
    }
  }

  lemma ValuesSnoc(es: seq<Event>, e: Event, k: Key)
    ensures Values(es + [e], k) == if e.Notify? && e.key == k then Values(es, k) + [e.value] else Values(es, k)
  {
    assert (es + [e])[..|es|] == es;
  }

  /** The window's content and whether it is still open. */
  predicate Window(es: seq<Event>, from: nat, i: nat, w: Watch)
    requires from <= |es|
  {
    var to := End(es, from, w.key, i);
    w.heard == Values(es[from..to], w.key) && (w.live && w.current <==> to == |es|)
  }

  lemma WindowStep(front: seq<Event>, e: Event, from: nat, i: nat, w: Watch)
    requires from <= |front| && Window(front, from, i, w)
    ensures Window(front + [e], from, i, Hear(w, e, i))
  {
    var to := End(front, from, w.key, i);
    EndSnoc(front, e, from, w.key, i);
    SliceSnoc(front, e, from, to);
    if to == |front| { ValuesSnoc(front[from..to], e, w.key); }
  }

  lemma SliceSnoc(front: seq<Event>, e: Event, from: nat, to: nat)
    requires from <= to <= |front|
    ensures (front + [e])[from..to] == front[from..to]
    ensures to == |front| ==> (front + [e])[from..to + 1] == front[from..to] + [e]
  {
  }

  /** A subscription has received exactly the notifications of its key made between its subscribe
      and the first removal of its key or release of its receiver, in order. */
  lemma {:induction false} HeardIsWindow(es: seq<Event>, i: nat)
    requires i < |Watches(es)|
    ensures Window(es, Begin(es, i), i, Watches(es)[i])
    decreases |es|
  {
    var n := |es| - 1;
    var front, e := es[..n], es[n];
    if i < |Watches(front)| {
      HeardIsWindow(front, i);
      WindowStep(front, e, Begin(front, i), i, Watches(front)[i]);
      assert front + [e] == es;
    }
  }

  // ---- The registry object ---------------------------------------------------------------

  method ReceiverCount(subs: seq<Sub>, chan: nat) returns (n: nat)
    ensures n == 0 <==> !Watched(subs, chan)
  {
    n := 0;
    for i := 0 to |subs|
      invariant n == 0 <==> !Watched(subs[..i], chan)
    {
      assert subs[..i + 1][..i] == subs[..i] && subs[..i + 1][i] == subs[i];
      if Listens(subs[i], chan) {
        n := n + 1;
        assert Listens(subs[..i + 1][i], chan);
      } else {
        assert forall j :: 0 <= j < i ==> subs[..i + 1][j] == subs[..i][j];
      }
    }
    assert subs[..|subs|] == subs;
  }

  /** The registry shared by all subscriptions; a subscription is its position in `subs`. */
  class Registry {
    var channels: map<Key, nat>
    var subs: seq<Sub>
    var next: nat

    function Now(): State
      reads this
    {
      State(channels, subs, next)
    }

    constructor ()
      ensures Now() == START
    {
      channels, subs, next := map[], [], 0;
    }

    method Subscribe(key: Key) returns (i: nat)
      modifies this
      ensures Now() == Apply(old(Now()), Event.Subscribe(key))
      ensures i == |old(subs)|
    {
      i := |subs|;
      if key !in channels {
        channels := channels[key := next];
        next := next + 1;
      }
      subs := subs + [Sub(key, channels[key], Live, [])];
    }

    method Notify(key: Key, value: Value)
      modifies this`subs
      ensures Now() == Apply(old(Now()), Event.Notify(key, value))
    {
      if key in channels {
        subs := Sent(subs, channels[key], value);
      }
    }

    method Remove(key: Key)
      modifies this`channels
      ensures Now() == Apply(old(Now()), Event.Remove(key))
    {
      channels := channels - {key};
    }

    /** The first half of a drop. */
    method Release(i: nat)
      requires i < |subs| && subs[i].phase == Live
      modifies this`subs
      ensures Now() == Apply(old(Now()), Event.Release(i))
    {
      subs := subs[i := subs[i].(phase := Released)];
    }

    /** The second half of a drop, with the lock held. */
    method Cleanup(i: nat)
      requires i < |subs| && subs[i].phase == Released
      modifies this`channels, this`subs
      ensures Now() == Apply(old(Now()), Event.Cleanup(i))
    {
      var key := subs[i].key;
      if key in channels {
        var n := ReceiverCount(subs, channels[key]);
        if n == 0 {
          channels := channels - {key};
        }
      }
      subs := subs[i := subs[i].(phase := Cleaned)];
    }

    method Step(e: Event)
      requires Enabled(Now(), e)
      modifies this
      ensures Now() == Apply(old(Now()), e)
    {
      match e {
        case Subscribe(k) => var _ := Subscribe(k);
        case Notify(k, v) => Notify(k, v);
        case Remove(k) => Remove(k);
        case Release(i) => Release(i);
        case Cleanup(i) => Cleanup(i);
      }
    }
  }

  /** Any interleaving of calls on one registry: what each subscription has received. */
  method Replay(es: seq<Event>) returns (inboxes: seq<seq<Value>>)
    requires IsRun(es)
    ensures |inboxes| == |Watches(es)| && forall i :: 0 <= i < |inboxes| ==> inboxes[i] == Watches(es)[i].heard
  {
    var r := new Registry();
    assert es[..|es|] == es;
    for n := 0 to |es|
      invariant fresh(r) && IsRun(es[..n]) && r.Now() == After(es[..n])
    {
      RunPrefix(es, n + 1);
      assert es[..n + 1][..n] == es[..n];
      r.Step(es[n]);
    }
    RunRefines(es);
    assert forall i :: 0 <= i < |r.subs| ==> Mirrors(r.Now(), r.subs[i], Watches(es)[i]);
    inboxes := seq(|r.subs|, i requires 0 <= i < |r.subs| reads r => r.subs[i].inbox);
  }

  lemma {:induction false} RunPrefix(es: seq<Event>, n: nat)
    requires IsRun(es) && n <= |es|
    ensures IsRun(es[..n])
    decreases |es|
  {
    if n == |es| {
      assert es[..n] == es;
    } else {
      RunPrefix(es[..|es| - 1], n);
      assert es[..|es| - 1][..n] == es[..n];
    }
  }
}
