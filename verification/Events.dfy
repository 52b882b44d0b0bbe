/** Event records of sessions, how a recorded event comes back, and the in-memory manager, which
    says what the file-backed one should return. */
module Events {
  import opened Wrappers
  import opened DataStorage

  // ---- Values ----------------------------------------------------------------------------

  /** A message is the bytes of its text. */
  type Text = seq<Byte>

  /** The instants a date can express, in milliseconds since the epoch. */
  const MIN_MILLIS: int := -8_334_601_228_800_000
  const MAX_MILLIS: int := 8_210_266_876_799_999
  const NANOS: int := 1_000_000

  /** Nanoseconds since the epoch. */
  type Instant = n: int | MIN_MILLIS * NANOS <= n < (MAX_MILLIS + 1) * NANOS witness 0

  function TimestampMillis(t: Instant): (ms: int)
    ensures MIN_MILLIS <= ms <= MAX_MILLIS
  {
    t / NANOS
  }

  function FromTimestampMillis(ms: int): Option<Instant>
  {
    if MIN_MILLIS <= ms <= MAX_MILLIS then Some(ms * NANOS) else None
  }

  type SessionId = string
  type TaskId = nat

  datatype Event = Event(code: int, message: Option<Text>, time: Instant)
  datatype Owner = Owner(session: SessionId, task: TaskId)

  function MessageOf(e: Event): Text { if e.message.Some? then e.message.value else [] }

  /** How a recorded event comes back: a missing message as empty, the time cut to milliseconds. */
  function Recorded(e: Event): Event
  {
    Event(e.code, Some(MessageOf(e)), TimestampMillis(e.time) * NANOS)
  }

  /** What is kept of an event: its code, its message or an empty one, and its time to the millisecond. */
  predicate KeptAs(e: Event, x: Event)
  {
    && x.code == e.code
    && x.message == (match e.message case Some(text) => Some(text) case None => Some([]))
    && x.time % NANOS == 0 && x.time <= e.time < x.time + NANOS
  }

  predicate EndsKept(list: seq<Event>, e: Event) { list != [] && KeptAs(e, list[|list| - 1]) }

  lemma RecordedIsKept(e: Event)
    ensures KeptAs(e, Recorded(e))
  {
  }

  lemma LastIsKept(before: seq<Event>, e: Event, after: seq<Event>)
    requires after == before + [Recorded(e)]
    ensures EndsKept(after, e)
  {
    RecordedIsKept(e);
  }

  // ---- The in-memory manager -------------------------------------------------------------

  datatype MemoryEvent = MemoryEvent(code: int, message: Text, millis: int)

  function Lookup<K(==), V>(m: map<K, map<TaskId, seq<V>>>, session: K, task: TaskId): seq<V>
  {
    if session in m && task in m[session] then m[session][task] else []
  }

  function Push<K(==), V>(m: map<K, map<TaskId, seq<V>>>, session: K, task: TaskId, v: V): map<K, map<TaskId, seq<V>>>
  {
    var tasks := if session in m then m[session] else map[];
    m[session := tasks[task := (if task in tasks then tasks[task] else []) + [v]]]
  }

  lemma PushLookup<K, V>(m: map<K, map<TaskId, seq<V>>>, session: K, task: TaskId, v: V, s: K, t: TaskId)
    ensures Lookup(Push(m, session, task, v), s, t) ==
      if s == session && t == task then Lookup(m, s, t) + [v] else Lookup(m, s, t)
  {
  }

  function Remembered(events: seq<MemoryEvent>): Option<seq<Event>>
  {
    if events == [] then Some([])
    else
      var n := |events| - 1;
      match (Remembered(events[..n]), FromTimestampMillis(events[n].millis))
      case (Some(front), Some(time)) => Some(front + [Event(events[n].code, Some(events[n].message), time)])
      case _ => None
  }

  lemma RememberedPush(events: map<SessionId, map<TaskId, seq<MemoryEvent>>>, o: Owner, e: Event, p: Owner)
    requires Remembered(Lookup(events, p.session, p.task)).Some?
    ensures var entry := MemoryEvent(e.code, MessageOf(e), TimestampMillis(e.time));
      var was := Remembered(Lookup(events, p.session, p.task)).value;
      Remembered(Lookup(Push(events, o.session, o.task, entry), p.session, p.task)) ==
      if p == o then Some(was + [Recorded(e)]) else Some(was)
  {
    var entry := MemoryEvent(e.code, MessageOf(e), TimestampMillis(e.time));
    var row := Lookup(events, p.session, p.task);
    PushLookup(events, o.session, o.task, entry, p.session, p.task);
    assert (row + [entry])[..|row|] == row;
  }

  class MemoryEventManager {
    var events: map<SessionId, map<TaskId, seq<MemoryEvent>>>

    ghost predicate Valid()
      reads this
    {
      forall s, t :: Remembered(Lookup(events, s, t)).Some?
    }

    ghost function Found(o: Owner): seq<Event>
      reads this
      requires Valid()
    {
      Remembered(Lookup(events, o.session, o.task)).value
    }

    constructor ()
      ensures Valid() && forall o :: Found(o) == []
    {
      events := map[];
    }

    method SetupEvents(session: SessionId) { }

    method RecordEvent(o: Owner, e: Event)
      requires Valid()
      modifies this
      ensures Valid()
      ensures forall p :: Found(p) == if p == o then old(Found(p)) + [Recorded(e)] else old(Found(p))
      ensures EndsKept(Found(o), e)
    {
      RecordedIsKept(e);
      var entry := MemoryEvent(e.code, MessageOf(e), TimestampMillis(e.time));
      forall p: Owner
        ensures Remembered(Lookup(Push(events, o.session, o.task, entry), p.session, p.task)) ==
          if p == o then Some(Found(p) + [Recorded(e)]) else Some(Found(p))
      {
        assert Remembered(Lookup(events, p.session, p.task)).Some?;
        RememberedPush(events, o, e, p);
      }
      events := Push(events, o.session, o.task, entry);
      forall s, t ensures Remembered(Lookup(events, s, t)).Some? {
        var p := Owner(s, t);
        assert Remembered(Lookup(events, p.session, p.task)).Some?;
      }
    }

    method FindEvents(o: Owner) returns (r: Result<seq<Event>>)
      requires Valid()
      ensures r == Ok(Found(o))
    {
      var list := Lookup(events, o.session, o.task);
      var found := [];
      assert list[..|list|] == list;
      for i := 0 to |list|
        invariant Remembered(list[..i]) == Some(found)
      {
        RememberedPrefix(list, i + 1);
        assert list[..i + 1][..i] == list[..i];
        var time := FromTimestampMillis(list[i].millis);
        if time.None? {
          return Err;
        }
        found := found + [Event(list[i].code, Some(list[i].message), time.value)];
      }
      r := Ok(found);
    }

    method RemoveEvents(session: SessionId)
      requires Valid()
      modifies this
      ensures Valid() && forall p :: Found(p) == if p.session == session then [] else old(Found(p))
    {
      ghost var was := events;
      events := events - {session};
      assert forall s, t :: Lookup(events, s, t) == if s == session then [] else Lookup(was, s, t);
    }
  }

  lemma {:induction false} RememberedPrefix(events: seq<MemoryEvent>, n: nat)
    requires n <= |events| && Remembered(events).Some?
    ensures Remembered(events[..n]).Some?
    decreases |events|
  {
    if n == |events| {
      assert events[..n] == events;
    } else {
      RememberedPrefix(events[..|events| - 1], n);
      assert events[..|events| - 1][..n] == events[..n];
    }
  }
}
