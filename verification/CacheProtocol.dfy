/** The object cache as interleaved steps of any number of operations. An operation takes its
    key locks one at a time, checks, writes the store, writes the metadata map and gives its
    locks back; between any two of these steps every other operation may step. */
module CacheProtocol {
  import opened Wrappers
  import opened Sequences
  import opened ObjectKeys

  type Key = string

  datatype Part = Part(creationTime: int, data: string)
  /** What the storage engine keeps under one key: a data type and the parts in write order. */
  datatype Object = Object(dataType: string, parts: seq<Part>)
  datatype Meta = Meta(version: nat, size: nat, creationTime: int, dataType: string)

  function Size(parts: seq<Part>): nat
  {
    if parts == [] then 0 else Size(parts[..|parts| - 1]) + |parts[|parts| - 1].data|
  }

  /** The metadata of a stored object: version = number of parts, size = sum of part sizes. */
  function MetaOf(o: Object): Meta
  {
    Meta(|o.parts|, Size(o.parts), if o.parts == [] then 0 else o.parts[0].creationTime, o.dataType)
  }

  function Extend(o: Object, part: Part): Object { o.(parts := o.parts + [part]) }

  /** What patch inserts: the metadata of the object it looked up, one version and one part more. */
  function PatchedMeta(seen: Object, part: Part): Meta
  {
    MetaOf(seen).(version := |seen.parts| + 1, size := MetaOf(seen).size + |part.data|)
  }

  lemma PatchedMetaAgrees(seen: Object, part: Part)
    requires seen.parts != []
    ensures PatchedMeta(seen, part) == MetaOf(Extend(seen, part))
  {
    var parts := seen.parts + [part];
    assert parts[..|parts| - 1] == seen.parts;
  }

  function NewMeta(dataType: string, part: Part): Meta { Meta(1, |part.data|, part.creationTime, dataType) }

  lemma NewMetaAgrees(dataType: string, part: Part)
    ensures NewMeta(dataType, part) == MetaOf(Object(dataType, [part]))
  {
    assert [part][..0] == [];
    assert Size([part]) == Size([]) + |part.data|;
  }

  // ---- Key order -------------------------------------------------------------------------

  /** The order `sort` uses on keys. */
  predicate Less(a: Key, b: Key)
  {
    if b == [] then false
    else if a == [] then true
    else a[0] < b[0] || (a[0] == b[0] && Less(a[1..], b[1..]))
  }

  lemma {:induction false} LessTransitive(a: Key, b: Key, c: Key)
    requires Less(a, b) && Less(b, c)
    ensures Less(a, c)
  {
    if a != [] && a[0] == b[0] == c[0] { LessTransitive(a[1..], b[1..], c[1..]); }
  }

  lemma {:induction false} LessIrreflexive(a: Key)
    ensures !Less(a, a)
  {
    if a != [] { LessIrreflexive(a[1..]); }
  }

  lemma {:induction false} LessTotal(a: Key, b: Key)
    ensures Less(a, b) || a == b || Less(b, a)
  {
    if a != [] && b != [] && a[0] == b[0] {
      LessTotal(a[1..], b[1..]);
      assert a == [a[0]] + a[1..] && b == [b[0]] + b[1..];
    }
  }

  predicate Ascending(keys: seq<Key>) { forall i, j :: 0 <= i < j < |keys| ==> Less(keys[i], keys[j]) }

  // ---- Operations ------------------------------------------------------------------------

  datatype Request =
    | Put(key: Key, dataType: string, part: Part)
    | Patch(key: Key, dataType: string, part: Part)
    | CompareAndDelete(key: Key, version: nat, creationTime: int)
    | Delete(filter: ObjectKey)
    | Get(key: Key, version: nat)

  /** Requests that reach a lock: puts and patches under a key printed from an ObjectKey, the
      others under any key the parser of stored keys accepts. */
  predicate Admissible(req: Request)
  {
    match req
    case Put(key, _, _) => ProperKey(key)
    case Patch(key, _, _) => ProperKey(key)
    case CompareAndDelete(key, _, _) => TryFrom(key).Ok?
    case Delete(_) => true
    case Get(key, _) => TryFrom(key).Ok?
  }

  /** `Content` carries the object's version and type and the parts after the requested version;
      `UpToDate` answers a reader that already has the current version. */
  datatype Response =
    | Version(version: nat)
    | Deleted(done: bool)
    | UpToDate(version: nat)
    | Content(version: nat, dataType: string, parts: seq<Part>)
    | Failed

  /** Program points. `Locking(true)` waits in the queue of the next lock of the plan. `Sending` is
      a reader that described its response from `found` and reads the parts one by one. */
  datatype Phase =
    | Fresh
    | Locking(queued: bool)
    | Locked
    | Probed
    | Checked(seen: Option<Object>)
    | Stored(seen: Option<Object>)
    | Sending(found: Object, sent: seq<Part>)
    | Leaving(answer: Response)
    | Finished(answer: Response)

  /** An operation: its request, the locks it takes in order, how many of them it has released
      (`lo`) and been granted (`got`), and its program point. */
  datatype Task = Task(req: Request, plan: seq<Key>, lo: nat, got: nat, phase: Phase)

  /** `queues` holds, per key lock, the operations that hold or await it in order of arrival.
      The last three fields are history: how often a key was created, how many parts its object
      had when loaded, and which operations were answered for it since. */
  datatype State = State(
    ops: seq<Task>,
    queues: map<Key, seq<nat>>,
    meta: map<Key, Meta>,
    store: map<Key, Object>,
    gen: map<Key, nat>,
    base: map<Key, nat>,
    acks: map<Key, seq<nat>>)

  function Queue(s: State, k: Key): seq<nat> { if k in s.queues then s.queues[k] else [] }
  function Gen(s: State, k: Key): nat { if k in s.gen then s.gen[k] else 0 }
  function Base(s: State, k: Key): nat { if k in s.base then s.base[k] else 0 }
  function Acks(s: State, k: Key): seq<nat> { if k in s.acks then s.acks[k] else [] }

  /** `load_from_storage`: metadata of everything the engine scans, nothing running. */
  function Load(store: map<Key, Object>): State
  {
    State([], map[], map k | k in store :: MetaOf(store[k]), store, map[],
          map k | k in store :: |store[k].parts|, map[])
  }

  /** An engine's content: objects have at least their first part, keys are printed keys. */
  predicate WellStored(store: map<Key, Object>)
  {
    forall k :: k in store ==> ProperKey(k) && store[k].parts != []
  }

  // ---- Locks -----------------------------------------------------------------------------

  predicate Holds(t: Task, k: Key) { t.lo <= t.got <= |t.plan| && k in t.plan[t.lo..t.got] }

  predicate Waits(t: Task) { t.phase == Locking(true) && t.got < |t.plan| }

  predicate WaitsOn(t: Task, k: Key) { Waits(t) && t.plan[t.got] == k }

  /** The operations that came before `o` in a queue. */
  function Ahead(q: seq<nat>, o: nat): seq<nat>
  {
    if q == [] || q[0] == o then [] else [q[0]] + Ahead(q[1..], o)
  }

  predicate Reads(s: State, o: nat) { o < |s.ops| && s.ops[o].req.Get? }

  predicate AllRead(s: State, q: seq<nat>) { forall i :: 0 <= i < |q| ==> Reads(s, q[i]) }

  /** The fair lock: a writer is granted at the head of the queue, a reader when only readers
      are ahead of it. */
  predicate Grantable(s: State, k: Key, o: nat)
  {
    && o in Queue(s, k)
    && (Ahead(Queue(s, k), o) == [] || (Reads(s, o) && AllRead(s, Ahead(Queue(s, k), o))))
  }

  // ---- Events ----------------------------------------------------------------------------

  /** `ok` is false when the storage call fails; a failed call has no effect. */
  datatype Event =
    | Start(req: Request)
    | Snapshot(op: nat, plan: seq<Key>)
    | Enqueue(op: nat)
    | Grant(op: nat)
    | Probe(op: nat)
    | Check(op: nat, ok: bool)
    | Write(op: nat, ok: bool)
    | Send(op: nat, ok: bool)
    | Record(op: nat)
    | Release(op: nat)
    | Finish(op: nat)

  /** The sorted list of the matching keys in the metadata map. */
  predicate IsPlan(s: State, filter: ObjectKey, plan: seq<Key>)
  {
    && Ascending(plan)
    && (forall k :: k in plan ==> k in s.meta && Matches(filter, k))
    && (forall k :: k in s.meta && Matches(filter, k) ==> k in plan)
  }

  predicate Enabled(s: State, e: Event)
  {
    match e
    case Start(req) => Admissible(req)
    case Snapshot(o, plan) => o < |s.ops| && s.ops[o].phase.Fresh? && s.ops[o].req.Delete? &&
      IsPlan(s, s.ops[o].req.filter, plan)
    case Enqueue(o) => o < |s.ops| && s.ops[o].phase == Locking(false) && s.ops[o].got < |s.ops[o].plan|
    case Grant(o) => o < |s.ops| && Waits(s.ops[o]) && Grantable(s, s.ops[o].plan[s.ops[o].got], o)
    case Probe(o) => o < |s.ops| && s.ops[o].phase.Locked? && (s.ops[o].req.Put? || s.ops[o].req.Get?)
    case Check(o, _) => o < |s.ops| && CheckPoint(s.ops[o])
    case Write(o, _) => o < |s.ops| && WritePoint(s.ops[o])
    case Send(o, _) => o < |s.ops| && s.ops[o].phase.Sending? && s.ops[o].req.Get?
    case Record(o) => o < |s.ops| && s.ops[o].phase.Stored? && !s.ops[o].req.Get?
    case Release(o) => o < |s.ops| && s.ops[o].phase.Leaving? && s.ops[o].lo < s.ops[o].got <= |s.ops[o].plan|
    case Finish(o) => o < |s.ops| && s.ops[o].phase.Leaving? && s.ops[o].lo == s.ops[o].got
  }

  predicate CheckPoint(t: Task)
  {
    match t.req
    case Put(_, _, _) => t.phase.Probed?
    case Get(_, _) => t.phase.Probed?
    case Delete(_) => false
    case _ => t.phase.Locked?
  }

  predicate WritePoint(t: Task) { if t.req.Delete? then t.phase.Locked? else t.phase.Checked? && !t.req.Get? }

  function Move(s: State, o: nat, phase: Phase): State
    requires o < |s.ops|
  {
    s.(ops := s.ops[o := s.ops[o].(phase := phase)])
  }

  /** What a put or a reader learns from the metadata map. */
  function ProbeOutcome(s: State, t: Task): Phase
  {
    match t.req
    case Put(key, _, _) => if key in s.meta then Leaving(Failed) else Probed
    case Get(key, version) =>
      if key !in s.meta then Leaving(Failed)
      else if version != 0 && s.meta[key].version == version then Leaving(UpToDate(version))
      else Probed
    case _ => t.phase
  }

  /** A reader that has sent these parts goes on, or is done. */
  function SentSoFar(version: nat, found: Object, sent: seq<Part>): Phase
  {
    if version + |sent| < |found.parts| then Sending(found, sent)
    else Leaving(Content(|found.parts|, found.dataType, sent))
  }

  /** One more part is read from the store. */
  function SendOutcome(s: State, t: Task, ok: bool): Phase
  {
    match (t.req, t.phase)
    case (Get(key, version), Sending(found, sent)) =>
      if !ok || key !in s.store || version + |sent| >= |s.store[key].parts| then Leaving(Failed)
      else SentSoFar(version, found, sent + [s.store[key].parts[version + |sent|]])
    case _ => t.phase
  }

  /** What an operation sees once it holds its lock. */
  function CheckOutcome(s: State, t: Task): Phase
  {
    match t.req
    case Put(key, _, _) => if key in s.store then Leaving(Failed) else Checked(None)
    case Patch(key, dataType, _) =>
      if key !in s.store || s.store[key].dataType != dataType then Leaving(Failed)
      else Checked(Some(s.store[key]))
    case CompareAndDelete(key, version, creationTime) =>
      if key in s.meta && s.meta[key].version == version && s.meta[key].creationTime == creationTime
      then Checked(None) else Leaving(Deleted(false))
    case Get(key, version) =>
      if key !in s.store || version > |s.store[key].parts| then Leaving(Failed)
      else SentSoFar(version, s.store[key], [])
    case Delete(_) => t.phase
  }

  function Erase<V>(m: map<Key, V>, filter: ObjectKey): map<Key, V>
  {
    map k | k in m && !Matches(filter, k) :: m[k]
  }

  /** Where the storage call leaves an operation. A patch of an object that is gone fails. */
  function WriteOutcome(s: State, t: Task, ok: bool): Phase
  {
    if !ok then Leaving(Failed)
    else match t.req
      case Patch(key, _, _) => if key in s.store && t.phase.Checked? then Stored(t.phase.seen) else Leaving(Failed)
      case Get(_, _) => t.phase
      case _ => Stored(None)
  }

  /** What the storage call does to the store. */
  function WrittenStore(s: State, t: Task): map<Key, Object>
  {
    match t.req
    case Put(key, dataType, part) => s.store[key := Object(dataType, [part])]
    case Patch(key, _, part) => if key in s.store then s.store[key := Extend(s.store[key], part)] else s.store
    case CompareAndDelete(key, _, _) =>
      (match TryFrom(key) case Ok(filter) => Erase(s.store, filter) case Err => s.store)
    case Delete(filter) => Erase(s.store, filter)
    case Get(_, _) => s.store
  }

  function ApplyWrite(s: State, o: nat, ok: bool): State
    requires o < |s.ops|
  {
    var t := s.ops[o];
    var moved := Move(s, o, WriteOutcome(s, t, ok));
    if !WriteOutcome(s, t, ok).Stored? then moved
    else if t.req.Put? then
      moved.(store := WrittenStore(s, t),
             gen := s.gen[t.req.key := Gen(s, t.req.key) + 1],
             base := s.base[t.req.key := 0],
             acks := s.acks[t.req.key := []])
    else moved.(store := WrittenStore(s, t))
  }

  /** The answer of an operation whose metadata update is done. */
  function RecordAnswer(t: Task): Response
  {
    match t.req
    case Put(_, _, _) => Version(1)
    case Patch(_, _, _) => if t.phase.Stored? && t.phase.seen.Some? then Version(|t.phase.seen.value.parts| + 1)
      else Failed
    case _ => Deleted(true)
  }

  function RecordedMeta(s: State, t: Task): map<Key, Meta>
  {
    match t.req
    case Put(key, dataType, part) => s.meta[key := NewMeta(dataType, part)]
    case Patch(key, _, part) =>
      if t.phase.Stored? && t.phase.seen.Some? then s.meta[key := PatchedMeta(t.phase.seen.value, part)] else s.meta
    case CompareAndDelete(key, _, _) => s.meta - {key}
    case Delete(filter) => Erase(s.meta, filter)
    case Get(_, _) => s.meta
  }

  function ApplyRecord(s: State, o: nat): State
    requires o < |s.ops|
  {
    var t := s.ops[o];
    var moved := Move(s, o, Leaving(RecordAnswer(t))).(meta := RecordedMeta(s, t));
    if t.req.Put? || t.req.Patch? then moved.(acks := s.acks[t.req.key := Acks(s, t.req.key) + [o]]) else moved
  }

  function Apply(s: State, e: Event): State
    requires Enabled(s, e)
  {
    match e
    case Start(req) =>
      s.(ops := s.ops +
          [if req.Delete? then Task(req, [], 0, 0, Fresh) else Task(req, [req.key], 0, 0, Locking(false))])
    case Snapshot(o, plan) =>
      s.(ops := s.ops[o := s.ops[o].(plan := plan, phase := if plan == [] then Locked else Locking(false))])
    case Enqueue(o) =>
      var k := s.ops[o].plan[s.ops[o].got];
      Move(s, o, Locking(true)).(queues := s.queues[k := Queue(s, k) + [o]])
    case Grant(o) =>
      var t := s.ops[o];
      s.(ops := s.ops[o := t.(got := t.got + 1, phase := if t.got + 1 == |t.plan| then Locked else Locking(false))])
    case Probe(o) =>
      Move(s, o, ProbeOutcome(s, s.ops[o]))
    case Check(o, ok) => Move(s, o, if ok then CheckOutcome(s, s.ops[o]) else Leaving(Failed))
    case Write(o, ok) => ApplyWrite(s, o, ok)
    case Send(o, ok) => Move(s, o, SendOutcome(s, s.ops[o], ok))
    case Record(o) => ApplyRecord(s, o)
    case Release(o) =>
      var t := s.ops[o];
      var k := t.plan[t.lo];
      s.(ops := s.ops[o := t.(lo := t.lo + 1)], queues := s.queues[k := Without(Queue(s, k), o)])
    case Finish(o) => Move(s, o, Finished(s.ops[o].phase.answer))
  }

  // ---- Runs ------------------------------------------------------------------------------

  predicate IsRun(s: State, events: seq<Event>)
    decreases |events|
  {
    events == [] || (Enabled(s, events[0]) && IsRun(Apply(s, events[0]), events[1..]))
  }

  function After(s: State, events: seq<Event>): State
    requires IsRun(s, events)
    decreases |events|
  {
    if events == [] then s else After(Apply(s, events[0]), events[1..])
  }
}
