/** The file-backed event manager. A session's files are a file of fixed-size records, a log of
    which record belongs to which task, and the append-only message file. */
module FsEvents {
  import opened Wrappers
  import opened DataStorage
  import opened Events

  /** A stored record; `message` is an interval of the message file. */
  datatype Dao = Dao(id: nat, owner: TaskId, code: int, message: Index, millis: int)

  datatype Files = Files(records: seq<Dao>, log: seq<(nat, TaskId)>, data: seq<Byte>)

  /** An open session: its files, and the owners table built from the log. */
  datatype Store = Store(files: Files, owners: map<TaskId, seq<nat>>)

  function Get(owners: map<TaskId, seq<nat>>, t: TaskId): seq<nat> { if t in owners then owners[t] else [] }

  /** How far writing an event gets: the message, the record that points at it, the line that says
      whose record it is. */
  datatype Stage = MessageFails | RecordFails | LogFails | AllWritten

  /** The record with an id, if there is one. Ids are 1-based positions in the record file. */
  function Nth(records: seq<Dao>, id: nat): seq<Dao> { if 1 <= id <= |records| then [records[id - 1]] else [] }

  /** The records that the log names, in the order of the log. */
  function Logged(log: seq<(nat, TaskId)>, records: seq<Dao>): seq<Dao>
  {
    if log == [] then [] else Logged(log[..|log| - 1], records) + Nth(records, log[|log| - 1].0)
  }

  function Entries(f: Files): seq<Dao> { Logged(f.log, f.records) }

  function LoadOwners(log: seq<(nat, TaskId)>): map<TaskId, seq<nat>>
  {
    if log == [] then map[]
    else
      var (id, owner) := log[|log| - 1];
      var owners := LoadOwners(log[..|log| - 1]);
      owners[owner := Get(owners, owner) + [id]]
  }

  /** The records of one task, in save order. */
  function Of(records: seq<Dao>, t: TaskId): seq<Dao>
  {
    if records == [] then []
    else
      var n := |records| - 1;
      Of(records[..n], t) + (if records[n].owner == t then [records[n]] else [])
  }

  function DecodeOne(d: Dao, data: seq<Byte>): Option<Event>
  {
    if d.message.start > d.message.end then None
    else
      match (Slice(data, d.message), FromTimestampMillis(d.millis))
      case (Ok(bytes), Some(time)) => Some(Event(d.code, Some(bytes), time))
      case _ => None
  }

  function Decode(ds: seq<Dao>, data: seq<Byte>): Option<seq<Event>>
  {
    if ds == [] then Some([])
    else
      var n := |ds| - 1;
      match (Decode(ds[..n], data), DecodeOne(ds[n], data))
      case (Some(front), Some(last)) => Some(front + [last])
      case _ => None
  }

  /** Files as this manager writes them: every line of the log names a record and its owner, and
      every record that is named can be decoded. A record whose line could not be written is never
      read. */
  predicate FilesOk(f: Files)
  {
    && LogOk(f.log, f.records)
    && (forall i :: 0 <= i < |f.log| ==> DecodeOne(f.records[f.log[i].0 - 1], f.data).Some?)
  }

  predicate LogOk(log: seq<(nat, TaskId)>, records: seq<Dao>)
  {
    forall i :: 0 <= i < |log| ==> 1 <= log[i].0 <= |records| && records[log[i].0 - 1].owner == log[i].1
  }

  predicate StoreOk(s: Store) { FilesOk(s.files) && s.owners == LoadOwners(s.files.log) }

  // ---- Records of one task ---------------------------------------------------------------

  lemma {:induction false} OfConcat(a: seq<Dao>, b: seq<Dao>, t: TaskId)
    ensures Of(a + b, t) == Of(a, t) + Of(b, t)
  {
    if b == [] {
      assert a + b == a;
    } else {
      var n := |b| - 1;
      OfConcat(a, b[..n], t);
      assert (a + b)[..|a| + n] == a + b[..n];
    }
  }

  lemma {:induction false} OfMembers(records: seq<Dao>, t: TaskId)
    ensures forall d :: d in Of(records, t) ==> d in records && d.owner == t
  {
    if records != [] { OfMembers(records[..|records| - 1], t); }
  }

  lemma {:induction false} OfOwned(ds: seq<Dao>, o: TaskId, t: TaskId)
    requires forall i :: 0 <= i < |ds| ==> ds[i].owner == o
    ensures Of(ds, t) == if t == o then ds else []
  {
    if ds != [] {
      var n := |ds| - 1;
      OfOwned(ds[..n], o, t);
      assert ds == ds[..n] + [ds[n]];
    }
  }

  /** The records that a list of ids names. */
  function LoadAll(records: seq<Dao>, ids: seq<nat>): seq<Dao>
  {
    if ids == [] then [] else LoadAll(records, ids[..|ids| - 1]) + Nth(records, ids[|ids| - 1])
  }

  lemma LoadAllSnoc(records: seq<Dao>, ids: seq<nat>, id: nat)
    ensures LoadAll(records, ids + [id]) == LoadAll(records, ids) + Nth(records, id)
  {
    assert (ids + [id])[..|ids|] == ids;
  }

  lemma OfSnoc(records: seq<Dao>, d: Dao, t: TaskId)
    ensures Of(records + [d], t) == if d.owner == t then Of(records, t) + [d] else Of(records, t)
  {
    assert (records + [d])[..|records|] == records;
  }

  lemma LoggedSnoc(log: seq<(nat, TaskId)>, entry: (nat, TaskId), records: seq<Dao>)
    ensures Logged(log + [entry], records) == Logged(log, records) + Nth(records, entry.0)
  {
    assert (log + [entry])[..|log|] == log;
  }

  /** A record that no line names is not read. */
  lemma {:induction false} LoggedMore(log: seq<(nat, TaskId)>, records: seq<Dao>, d: Dao)
    requires LogOk(log, records)
    ensures Logged(log, records + [d]) == Logged(log, records)
  {
    if log != [] { LoggedMore(log[..|log| - 1], records, d); }
  }

  lemma {:induction false} LoggedMembers(log: seq<(nat, TaskId)>, records: seq<Dao>, data: seq<Byte>)
    requires LogOk(log, records) && forall i :: 0 <= i < |log| ==> DecodeOne(records[log[i].0 - 1], data).Some?
    ensures forall d :: d in Logged(log, records) ==> DecodeOne(d, data).Some?
  {
    if log != [] {
      LoggedMembers(log[..|log| - 1], records, data);
      assert Nth(records, log[|log| - 1].0) == [records[log[|log| - 1].0 - 1]];
    }
  }

  lemma OwnersLast(log: seq<(nat, TaskId)>, n: nat, t: TaskId)
    requires |log| == n + 1
    ensures Get(LoadOwners(log), t) ==
      if t == log[n].1 then Get(LoadOwners(log[..n]), t) + [log[n].0] else Get(LoadOwners(log[..n]), t)
  {
  }

  /** The owners table names, for every task, exactly its logged records in save order. */
  lemma {:induction false} OwnersNameRecords(log: seq<(nat, TaskId)>, records: seq<Dao>, t: TaskId)
    requires LogOk(log, records)
    ensures LoadAll(records, Get(LoadOwners(log), t)) == Of(Logged(log, records), t)
  {
    if log != [] {
      var n := |log| - 1;
      var ids, id := Get(LoadOwners(log[..n]), t), log[n].0;
      OwnersNameRecords(log[..n], records, t);
      OwnersLast(log, n, t);
      LoadAllSnoc(records, ids, id);
      OfSnoc(Logged(log[..n], records), records[id - 1], t);
    }
  }

  // ---- Decoding --------------------------------------------------------------------------

  predicate SameButId(a: seq<Dao>, b: seq<Dao>)
  {
    |a| == |b| && forall i :: 0 <= i < |a| ==> a[i].(id := 0) == b[i].(id := 0)
  }

  lemma {:induction false} DecodeIgnoresId(a: seq<Dao>, b: seq<Dao>, data: seq<Byte>)
    requires SameButId(a, b)
    ensures Decode(a, data) == Decode(b, data)
  {
    if a != [] {
      var n := |a| - 1;
      DecodeIgnoresId(a[..n], b[..n], data);
      assert a[n].(id := 0) == b[n].(id := 0);
    }
  }

  lemma DecodeOneStays(d: Dao, data: seq<Byte>, more: seq<Byte>)
    requires DecodeOne(d, data).Some?
    ensures DecodeOne(d, data + more) == DecodeOne(d, data)
  {
    assert d.message.end <= |data| ==>
      (data + more)[d.message.start..d.message.end] == data[d.message.start..d.message.end];
  }

  lemma {:induction false} DecodeStays(ds: seq<Dao>, data: seq<Byte>, more: seq<Byte>)
    requires Decode(ds, data).Some?
    ensures Decode(ds, data + more) == Decode(ds, data)
  {
    if ds != [] {
      DecodeStays(ds[..|ds| - 1], data, more);
      DecodeOneStays(ds[|ds| - 1], data, more);
    }
  }

  lemma {:induction false} DecodeAll(ds: seq<Dao>, data: seq<Byte>)
    requires forall d :: d in ds ==> DecodeOne(d, data).Some?
    ensures Decode(ds, data).Some?
  {
    if ds != [] { DecodeAll(ds[..|ds| - 1], data); }
  }

  /** The events of one task that a session's files hold. */
  function Held(f: Files, t: TaskId): seq<Event>
  {
    match Decode(Of(Entries(f), t), f.data) case Some(events) => events case None => []
  }

  lemma HeldDecodes(f: Files, t: TaskId)
    requires FilesOk(f)
    ensures Decode(Of(Entries(f), t), f.data) == Some(Held(f, t))
  {
    LoggedMembers(f.log, f.records, f.data);
    OfMembers(Entries(f), t);
    DecodeAll(Of(Entries(f), t), f.data);
  }

  /** The record of an event whose message is the next one in the message file. */
  function RecordOf(s: Store, task: TaskId, e: Event): Dao
  {
    Dao(0, task, e.code, Index(|s.files.data|, |s.files.data| + |MessageOf(e)|), TimestampMillis(e.time))
  }

  /** Message first, then the record that points at it, then the line that says whose it is. */
  function Written(f: Files, d: Dao, e: Event, stage: Stage): Files
  {
    var id := |f.records| + 1;
    var data := f.data + MessageOf(e);
    match stage
    case MessageFails => f
    case RecordFails => f.(data := data)
    case LogFails => f.(data := data, records := f.records + [d.(id := id)])
    case AllWritten => Files(f.records + [d.(id := id)], f.log + [(id, d.owner)], data)
  }

  function SaveEvent(s: Store, task: TaskId, e: Event, stage: Stage): Store
  {
    var d := RecordOf(s, task, e);
    Store(Written(s.files, d, e, stage),
          if stage.AllWritten? then s.owners[task := Get(s.owners, task) + [|s.files.records| + 1]] else s.owners)
  }

  lemma SavedDecodes(data: seq<Byte>, task: TaskId, e: Event, id: nat)
    ensures DecodeOne(Dao(id, task, e.code, Index(|data|, |data| + |MessageOf(e)|), TimestampMillis(e.time)),
                      data + MessageOf(e))
         == Some(Recorded(e))
  {
    SavedStays(data, MessageOf(e), []);
    assert data + MessageOf(e) + [] == data + MessageOf(e);
  }

  lemma MoreData(f: Files, more: seq<Byte>)
    requires FilesOk(f)
    ensures FilesOk(f.(data := f.data + more))
  {
    forall i | 0 <= i < |f.log| ensures DecodeOne(f.records[f.log[i].0 - 1], f.data + more).Some? {
      DecodeOneStays(f.records[f.log[i].0 - 1], f.data, more);
    }
  }

  lemma MoreRecords(f: Files, d: Dao)
    requires FilesOk(f)
    ensures FilesOk(f.(records := f.records + [d]))
  {
  }

  lemma MoreLog(f: Files, id: nat, owner: TaskId)
    requires FilesOk(f) && 1 <= id <= |f.records| && f.records[id - 1].owner == owner
    requires DecodeOne(f.records[id - 1], f.data).Some?
    ensures FilesOk(f.(log := f.log + [(id, owner)]))
    ensures LoadOwners(f.log + [(id, owner)]) == LoadOwners(f.log)[owner := Get(LoadOwners(f.log), owner) + [id]]
  {
    assert (f.log + [(id, owner)])[..|f.log|] == f.log;
  }

  lemma SaveKeepsFiles(s: Store, task: TaskId, e: Event, stage: Stage)
    requires StoreOk(s)
    ensures StoreOk(SaveEvent(s, task, e, stage))
  {
    var f := s.files;
    var n := |f.records| + 1;
    var d := RecordOf(s, task, e).(id := n);
    if !stage.MessageFails? {
      MoreData(f, MessageOf(e));
      var written := f.(data := f.data + MessageOf(e));
      MoreRecords(written, d);
      SavedDecodes(f.data, task, e, n);
      MoreLog(written.(records := f.records + [d]), n, task);
    }
  }

  /** More message bytes, and one more entry that decodes to `e`. */
  lemma HeldSnoc(f: Files, g: Files, d: Dao, more: seq<Byte>, e: Event, t: TaskId)
    requires FilesOk(f) && Entries(g) == Entries(f) + [d] && g.data == f.data + more
    requires DecodeOne(d, g.data) == Some(e)
    ensures Held(g, t) == if d.owner == t then Held(f, t) + [e] else Held(f, t)
  {
    var before := Of(Entries(f), t);
    HeldDecodes(f, t);
    DecodeStays(before, f.data, more);
    OfSnoc(Entries(f), d, t);
    assert (before + [d])[..|before|] == before;
  }

  lemma HeldSame(f: Files, g: Files, more: seq<Byte>, t: TaskId)
    requires FilesOk(f) && Entries(g) == Entries(f) && g.data == f.data + more
    ensures Held(g, t) == Held(f, t)
  {
    HeldDecodes(f, t);
    DecodeStays(Of(Entries(f), t), f.data, more);
  }

  /** What a write adds to the entries: its record when every file was written, nothing otherwise. */
  lemma SaveEntries(s: Store, task: TaskId, e: Event, stage: Stage)
    requires StoreOk(s)
    ensures Entries(SaveEvent(s, task, e, stage).files) ==
      if stage.AllWritten? then Entries(s.files) + [RecordOf(s, task, e).(id := |s.files.records| + 1)]
      else Entries(s.files)
  {
    var f := s.files;
    var d, id := RecordOf(s, task, e).(id := |f.records| + 1), |f.records| + 1;
    LoggedMore(f.log, f.records, d);
    if stage.AllWritten? { LoggedSnoc(f.log, (id, task), f.records + [d]); }
  }

  /** An event that was written in full is held behind the task's earlier ones; one that was not is
      held nowhere, and other tasks hold what they held. */
  lemma SaveHolds(s: Store, task: TaskId, e: Event, stage: Stage, t: TaskId)
    requires StoreOk(s)
    ensures Held(SaveEvent(s, task, e, stage).files, t) ==
      if stage.AllWritten? && t == task then Held(s.files, t) + [Recorded(e)] else Held(s.files, t)
  {
    var f, g := s.files, SaveEvent(s, task, e, stage).files;
    var n := |f.records|;
    SaveEntries(s, task, e, stage);
    if stage.AllWritten? {
      SavedDecodes(f.data, task, e, n + 1);
      HeldSnoc(f, g, RecordOf(s, task, e).(id := n + 1), MessageOf(e), Recorded(e), t);
    } else if stage.MessageFails? {
      assert f.data + [] == f.data;
      HeldSame(f, g, [], t);
    } else {
      HeldSame(f, g, MessageOf(e), t);
    }
  }

  // ---- The manager -----------------------------------------------------------------------

  /** What the in-memory table of a session says matches its files, task by task. */
  ghost predicate TableOk(events: map<SessionId, map<TaskId, seq<Dao>>>, s: SessionId, f: Files)
  {
    forall t :: SameButId(Lookup(events, s, t), Of(Entries(f), t))
  }

  lemma ListStep(recorded: seq<Dao>, records: seq<Dao>, o: TaskId, t: TaskId)
    ensures Of(recorded + Of(records, o), t) == if t == o then Of(recorded, t) + Of(records, t) else Of(recorded, t)
  {
    OfConcat(recorded, Of(records, o), t);
    OfMembers(records, o);
    OfOwned(Of(records, o), o, t);
  }

  lemma {:induction false} NoOwner(log: seq<(nat, TaskId)>, records: seq<Dao>, t: TaskId)
    requires LogOk(log, records) && t !in LoadOwners(log)
    ensures Of(Logged(log, records), t) == []
  {
    OwnersNameRecords(log, records, t);
  }

  /** The records read back so far: those of the tasks already visited. */
  ghost predicate Listed(recorded: seq<Dao>, records: seq<Dao>, done: set<TaskId>)
  {
    forall t :: Of(recorded, t) == if t in done then Of(records, t) else []
  }

  lemma ListedStep(recorded: seq<Dao>, records: seq<Dao>, done: set<TaskId>, o: TaskId)
    requires Listed(recorded, records, done) && o !in done
    ensures Listed(recorded + Of(records, o), records, done + {o})
  {
    forall t ensures Of(recorded + Of(records, o), t) == if t in done + {o} then Of(records, t) else [] {
      ListStep(recorded, records, o, t);
    }
  }

  /** Reading every record back: the owners table is walked in any order of the tasks. */
  method List(records: seq<Dao>, owners: map<TaskId, seq<nat>>, ghost entries: seq<Dao>) returns (recorded: seq<Dao>)
    requires forall o :: o in owners ==> LoadAll(records, owners[o]) == Of(entries, o)
    ensures Listed(recorded, entries, owners.Keys)
  {
    recorded := [];
    var todo := owners.Keys;
    while todo != {}
      invariant todo <= owners.Keys
      invariant Listed(recorded, entries, owners.Keys - todo)
      decreases todo
    {
      var o :| o in todo;
      ListedStep(recorded, entries, owners.Keys - todo, o);
      recorded := recorded + LoadAll(records, owners[o]);
      assert owners.Keys - (todo - {o}) == owners.Keys - todo + {o};
      todo := todo - {o};
    }
    assert owners.Keys - todo == owners.Keys;
  }

  /** A listing of a well-formed store has every logged record, those of one task in save order. */
  method ListStore(store: Store) returns (recorded: seq<Dao>)
    requires StoreOk(store)
    ensures forall t :: Of(recorded, t) == Of(Entries(store.files), t)
  {
    forall t ensures LoadAll(store.files.records, Get(store.owners, t)) == Of(Entries(store.files), t) {
      OwnersNameRecords(store.files.log, store.files.records, t);
    }
    recorded := List(store.files.records, store.owners, Entries(store.files));
    forall t ensures Of(recorded, t) == Of(Entries(store.files), t) {
      if t !in store.owners { NoOwner(store.files.log, store.files.records, t); }
    }
  }

  const NO_FILES := Files([], [], [])

  /** Open a session's directory, making it if it is not there, and read its records. */
  method OpenSession(closed: map<SessionId, Files>, session: SessionId) returns (store: Store, recorded: seq<Dao>)
    requires session in closed ==> FilesOk(closed[session])
    ensures StoreOk(store) && store.files == if session in closed then closed[session] else NO_FILES
    ensures forall t :: Of(recorded, t) == Of(Entries(store.files), t)
  {
    var files := if session in closed then closed[session] else NO_FILES;
    store := Store(files, LoadOwners(files.log));
    recorded := ListStore(store);
  }

  /** The table after listed records of a session were entered. */
  ghost predicate Published(events: map<SessionId, map<TaskId, seq<Dao>>>, s: SessionId, recorded: seq<Dao>,
                            now: map<SessionId, map<TaskId, seq<Dao>>>)
  {
    && (forall q, t :: Lookup(now, q, t) ==
          if q == s then Lookup(events, q, t) + Of(recorded, t) else Lookup(events, q, t))
    && (forall q :: q in now ==> q in events || q == s)
  }

  lemma PublishedStep(events: map<SessionId, map<TaskId, seq<Dao>>>, s: SessionId, front: seq<Dao>,
                      now: map<SessionId, map<TaskId, seq<Dao>>>, d: Dao)
    requires Published(events, s, front, now)
    ensures Published(events, s, front + [d], Push(now, s, d.owner, d))
  {
    forall q, t ensures Lookup(Push(now, s, d.owner, d), q, t) ==
        if q == s then Lookup(events, q, t) + Of(front + [d], t) else Lookup(events, q, t)
    {
      PushLookup(now, s, d.owner, d, q, t);
      OfSnoc(front, d, t);
    }
  }

  /** Enter listed records into the table of a session. */
  method Publish(events: map<SessionId, map<TaskId, seq<Dao>>>, s: SessionId, recorded: seq<Dao>)
    returns (now: map<SessionId, map<TaskId, seq<Dao>>>)
    ensures Published(events, s, recorded, now)
  {
    now := events;
    for i := 0 to |recorded|
      invariant Published(events, s, recorded[..i], now)
    {
      var d := recorded[i];
      PublishedStep(events, s, recorded[..i], now, d);
      assert recorded[..i] + [d] == recorded[..i + 1];
      now := Push(now, s, d.owner, d);
    }
    assert recorded[..|recorded|] == recorded;
  }

  ghost predicate ManagerOk(registry: map<SessionId, Store>, events: map<SessionId, map<TaskId, seq<Dao>>>,
                            closed: map<SessionId, Files>)
  {
    && (forall s :: s in registry ==> StoreOk(registry[s]) && TableOk(events, s, registry[s].files))
    && (forall s :: s in events ==> s in registry)
    && (forall s :: s in closed ==> s !in registry && FilesOk(closed[s]))
  }

  ghost function FoundIn(registry: map<SessionId, Store>, o: Owner): seq<Event>
  {
    if o.session in registry then Held(registry[o.session].files, o.task) else []
  }

  /** Read every listed message back; the first failure ends the reading. */
  method ReadEvents(daos: seq<Dao>, data: seq<Byte>) returns (r: Result<seq<Event>>)
    requires forall d :: d in daos ==> d.message.start <= d.message.end
    ensures r == match Decode(daos, data) case Some(events) => Ok(events) case None => Err
  {
    var found := [];
    assert daos[..|daos|] == daos;
    for i := 0 to |daos|
      invariant Decode(daos[..i], data) == Some(found)
    {
      DecodePrefix(daos, i + 1, data);
      assert daos[..i + 1][..i] == daos[..i];
      assert daos[i] in daos;
      var message := Slice(data, daos[i].message);
      if message.Err? {
        return Err;
      }
      var time := FromTimestampMillis(daos[i].millis);
      if time.None? {
        return Err;
      }
      found := found + [Event(daos[i].code, Some(message.value), time.value)];
    }
    r := Ok(found);
  }

  /** Write one event of a session that is set up, and enter it into the table when all is written. */
  method WriteEvent(registry: map<SessionId, Store>, events: map<SessionId, map<TaskId, seq<Dao>>>,
                    ghost closed: map<SessionId, Files>, o: Owner, e: Event, stage: Stage)
    returns (stores: map<SessionId, Store>, table: map<SessionId, map<TaskId, seq<Dao>>>)
    requires ManagerOk(registry, events, closed) && o.session in registry
    ensures ManagerOk(stores, table, closed) && stores.Keys == registry.Keys
    ensures forall p ::
      FoundIn(stores, p) ==
      (if stage.AllWritten? && p == o then FoundIn(registry, p) + [Recorded(e)] else FoundIn(registry, p))
    ensures stage.AllWritten? ==> EndsKept(FoundIn(stores, o), e)
  {
    var was := registry[o.session];
    RecordedFound(registry, o, e, stage);
    if stage.AllWritten? { RecordedEnds(registry, o, e); }
    WriteOk(registry, events, closed, o, e, stage);
    stores := registry[o.session := SaveEvent(was, o.task, e, stage)];
    table := if stage.AllWritten? then Push(events, o.session, o.task, RecordOf(was, o.task, e)) else events;
  }

  class FsEventManager {
    var registry: map<SessionId, Store>
    var events: map<SessionId, map<TaskId, seq<Dao>>>
    /** The session directories on disk that this manager has not set up. */
    var closed: map<SessionId, Files>

    ghost predicate Valid()
      reads this
    {
      ManagerOk(registry, events, closed)
    }

    /** The whole content of the storage directory. */
    function Disk(): map<SessionId, Files>
      reads this
    {
      closed + (map s | s in registry :: registry[s].files)
    }

    ghost function Found(o: Owner): seq<Event>
      reads this
    {
      FoundIn(registry, o)
    }

    /** A manager over an existing directory; it opens nothing by itself. */
    constructor (disk: map<SessionId, Files>)
      requires forall s :: s in disk ==> FilesOk(disk[s])
      ensures Valid() && registry == map[] && Disk() == disk
    {
      registry, events, closed := map[], map[], disk;
    }

    /** Open a session once, with the events an earlier run recorded for it. */
    method SetupEvents(session: SessionId)
      requires Valid()
      modifies this
      ensures Valid() && registry.Keys == old(registry.Keys) + {session} && closed == old(closed) - {session}
      ensures forall o: Owner :: o.session != session || session in old(registry) ==> Found(o) == old(Found(o))
      ensures session !in old(registry) ==> forall t ::
        Found(Owner(session, t)) == if session in old(closed) then Held(old(closed)[session], t) else []
    {
      if session in registry {
        return;
      }
      var store, recorded := OpenSession(closed, session);
      var published := Publish(events, session, recorded);
      OpenedOk(registry, events, closed, session, store, recorded, published);
      OpenedFound(registry, session, store);
      registry := registry[session := store];
      events := published;
      closed := closed - {session};
    }

    /** An event of a session that is set up is stored; otherwise the record is refused. `stage` says
        which of the three writes fails, if any; what was written before it stays in the files and is
        never read. */
    method RecordEvent(o: Owner, e: Event, stage: Stage) returns (ok: bool)
      requires Valid()
      modifies this
      ensures Valid() && registry.Keys == old(registry.Keys) && closed == old(closed)
      ensures ok <==> stage.AllWritten? && o.session in registry
      ensures forall p :: Found(p) == if ok && p == o then old(Found(p)) + [Recorded(e)] else old(Found(p))
      ensures ok ==> EndsKept(Found(o), e)
    {
      if o.session !in registry {
        return false;
      }
      registry, events := WriteEvent(registry, events, closed, o, e, stage);
      ok := stage.AllWritten?;
    }

    /** The task's events, read back from the message file one by one. */
    method FindEvents(o: Owner) returns (r: Result<seq<Event>>)
      requires Valid()
      ensures r == Ok(Found(o))
    {
      if o.session !in registry {
        return Ok([]);
      }
      var files := registry[o.session].files;
      var daos := Lookup(events, o.session, o.task);
      assert TableOk(events, o.session, files);
      DecodeIgnoresId(daos, Of(Entries(files), o.task), files.data);
      HeldDecodes(files, o.task);
      DecodedStarts(daos, files.data);
      r := ReadEvents(daos, files.data);
    }

    /** The session's directory, its table and its registry entry go. If there is a directory and it
        cannot be removed, nothing changes. */
    method RemoveEvents(session: SessionId, removable: bool) returns (ok: bool)
      requires Valid()
      modifies this
      ensures ok <==> removable || session !in old(Disk())
      ensures !ok ==> unchanged(this)
      ensures Valid() && (ok ==> registry.Keys == old(registry.Keys) - {session} && closed == old(closed) - {session})
      ensures ok ==>
        session !in Disk() && forall p: Owner :: Found(p) == if p.session == session then [] else old(Found(p))
    {
      if session in Disk() && !removable {
        return false;
      }
      RemovedOk(registry, events, closed, session);
      RemovedFound(registry, session);
      closed := closed - {session};
      events := events - {session};
      registry := registry - {session};
      ok := true;
    }
  }

  lemma OpenedOk(registry: map<SessionId, Store>, events: map<SessionId, map<TaskId, seq<Dao>>>,
                 closed: map<SessionId, Files>, session: SessionId, store: Store, recorded: seq<Dao>,
                 published: map<SessionId, map<TaskId, seq<Dao>>>)
    requires ManagerOk(registry, events, closed) && session !in registry && StoreOk(store)
    requires Published(events, session, recorded, published)
    requires forall t :: Of(recorded, t) == Of(Entries(store.files), t)
    ensures ManagerOk(registry[session := store], published, closed - {session})
  {
    forall t ensures Lookup(published, session, t) == Of(Entries(store.files), t) {
      assert Lookup(events, session, t) == [];
    }
    forall s | s in registry ensures TableOk(published, s, registry[s].files) {
      PublishedElsewhere(events, session, recorded, published, s, registry[s].files);
    }
  }

  lemma PublishedElsewhere(events: map<SessionId, map<TaskId, seq<Dao>>>, session: SessionId, recorded: seq<Dao>,
                           published: map<SessionId, map<TaskId, seq<Dao>>>, s: SessionId, f: Files)
    requires Published(events, session, recorded, published) && s != session && TableOk(events, s, f)
    ensures TableOk(published, s, f)
  {
    forall t ensures SameButId(Lookup(published, s, t), Of(Entries(f), t)) {
      assert Lookup(published, s, t) == Lookup(events, s, t);
    }
  }

  lemma SavedRow(was: Store, task: TaskId, e: Event, row: seq<Dao>, t: TaskId)
    requires StoreOk(was) && SameButId(row, Of(Entries(was.files), t))
    ensures SameButId(if t == task then row + [RecordOf(was, task, e)] else row,
                      Of(Entries(SaveEvent(was, task, e, AllWritten).files), t))
  {
    SaveEntries(was, task, e, AllWritten);
    OfSnoc(Entries(was.files), RecordOf(was, task, e).(id := |was.files.records| + 1), t);
  }

  lemma SavedTable(events: map<SessionId, map<TaskId, seq<Dao>>>, was: Store, o: Owner, e: Event)
    requires StoreOk(was) && TableOk(events, o.session, was.files)
    ensures TableOk(Push(events, o.session, o.task, RecordOf(was, o.task, e)), o.session,
                    SaveEvent(was, o.task, e, AllWritten).files)
  {
    var d := RecordOf(was, o.task, e);
    var files := SaveEvent(was, o.task, e, AllWritten).files;
    forall t ensures SameButId(Lookup(Push(events, o.session, o.task, d), o.session, t), Of(Entries(files), t)) {
      PushLookup(events, o.session, o.task, d, o.session, t);
      assert SameButId(Lookup(events, o.session, t), Of(Entries(was.files), t));
      SavedRow(was, o.task, e, Lookup(events, o.session, t), t);
    }
  }

  lemma OtherTable(events: map<SessionId, map<TaskId, seq<Dao>>>, o: Owner, d: Dao, s: SessionId, f: Files)
    requires TableOk(events, s, f) && s != o.session
    ensures TableOk(Push(events, o.session, o.task, d), s, f)
  {
    forall t ensures SameButId(Lookup(Push(events, o.session, o.task, d), s, t), Of(Entries(f), t)) {
      PushLookup(events, o.session, o.task, d, s, t);
    }
  }

  /** One session's store changes, and its table with it. */
  lemma StoreReplaced(registry: map<SessionId, Store>, events: map<SessionId, map<TaskId, seq<Dao>>>,
                      closed: map<SessionId, Files>,
                      session: SessionId, store: Store, now: map<SessionId, map<TaskId, seq<Dao>>>)
    requires ManagerOk(registry, events, closed) && session in registry && StoreOk(store)
    requires TableOk(now, session, store.files)
    requires forall s :: s in registry && s != session ==> TableOk(now, s, registry[s].files)
    requires forall s :: s in now ==> s in events || s == session
    ensures ManagerOk(registry[session := store], now, closed)
  {
  }

  lemma RecordedOk(registry: map<SessionId, Store>, events: map<SessionId, map<TaskId, seq<Dao>>>,
                   closed: map<SessionId, Files>, o: Owner, e: Event)
    requires ManagerOk(registry, events, closed) && o.session in registry
    ensures var was := registry[o.session];
      ManagerOk(registry[o.session := SaveEvent(was, o.task, e, AllWritten)],
                Push(events, o.session, o.task, RecordOf(was, o.task, e)), closed)
  {
    var was := registry[o.session];
    var d := RecordOf(was, o.task, e);
    SaveKeepsFiles(was, o.task, e, AllWritten);
    SavedTable(events, was, o, e);
    forall s | s in registry && s != o.session
      ensures TableOk(Push(events, o.session, o.task, d), s, registry[s].files)
    {
      OtherTable(events, o, d, s, registry[s].files);
    }
    StoreReplaced(registry, events, closed, o.session, SaveEvent(was, o.task, e, AllWritten),
                  Push(events, o.session, o.task, d));
  }

  /** A write that did not get to the end changes no entry. */
  lemma UnfinishedOk(registry: map<SessionId, Store>, events: map<SessionId, map<TaskId, seq<Dao>>>,
                     closed: map<SessionId, Files>, o: Owner, e: Event, stage: Stage)
    requires ManagerOk(registry, events, closed) && o.session in registry && !stage.AllWritten?
    ensures ManagerOk(registry[o.session := SaveEvent(registry[o.session], o.task, e, stage)], events, closed)
  {
    var was := registry[o.session];
    var store := SaveEvent(was, o.task, e, stage);
    SaveKeepsFiles(was, o.task, e, stage);
    SaveEntries(was, o.task, e, stage);
    assert TableOk(events, o.session, was.files);
    assert TableOk(events, o.session, store.files);
    StoreReplaced(registry, events, closed, o.session, store, events);
  }

  lemma WriteOk(registry: map<SessionId, Store>, events: map<SessionId, map<TaskId, seq<Dao>>>,
                closed: map<SessionId, Files>, o: Owner, e: Event, stage: Stage)
    requires ManagerOk(registry, events, closed) && o.session in registry
    ensures var was := registry[o.session];
      ManagerOk(registry[o.session := SaveEvent(was, o.task, e, stage)],
                if stage.AllWritten? then Push(events, o.session, o.task, RecordOf(was, o.task, e)) else events, closed)
  {
    if stage.AllWritten? {
      RecordedOk(registry, events, closed, o, e);
    } else {
      UnfinishedOk(registry, events, closed, o, e, stage);
    }
  }

  lemma OpenedFound(registry: map<SessionId, Store>, session: SessionId, store: Store)
    ensures forall o ::
      FoundIn(registry[session := store], o) ==
      (if o.session == session then Held(store.files, o.task) else FoundIn(registry, o))
  {
  }

  lemma RemovedFound(registry: map<SessionId, Store>, session: SessionId)
    ensures forall o :: FoundIn(registry - {session}, o) == if o.session == session then [] else FoundIn(registry, o)
  {
  }

  lemma RemovedOk(registry: map<SessionId, Store>, events: map<SessionId, map<TaskId, seq<Dao>>>,
                  closed: map<SessionId, Files>, session: SessionId)
    requires ManagerOk(registry, events, closed)
    ensures ManagerOk(registry - {session}, events - {session}, closed - {session})
  {
    forall s | s in registry && s != session ensures TableOk(events - {session}, s, registry[s].files) {
      assert TableOk(events, s, registry[s].files);
      assert forall t :: Lookup(events - {session}, s, t) == Lookup(events, s, t);
    }
  }

  lemma RecordedEnds(registry: map<SessionId, Store>, o: Owner, e: Event)
    requires o.session in registry && StoreOk(registry[o.session])
    ensures var now := registry[o.session := SaveEvent(registry[o.session], o.task, e, AllWritten)];
      EndsKept(FoundIn(now, o), e)
  {
    var now := registry[o.session := SaveEvent(registry[o.session], o.task, e, AllWritten)];
    RecordedFound(registry, o, e, AllWritten);
    LastIsKept(FoundIn(registry, o), e, FoundIn(now, o));
  }

  lemma RecordedFound(registry: map<SessionId, Store>, o: Owner, e: Event, stage: Stage)
    requires o.session in registry && StoreOk(registry[o.session])
    ensures var registry' := registry[o.session := SaveEvent(registry[o.session], o.task, e, stage)];
      forall p :: FoundIn(registry', p) ==
        if stage.AllWritten? && p == o then FoundIn(registry, p) + [Recorded(e)] else FoundIn(registry, p)
  {
    var registry' := registry[o.session := SaveEvent(registry[o.session], o.task, e, stage)];
    forall p ensures FoundIn(registry', p) ==
        if stage.AllWritten? && p == o then FoundIn(registry, p) + [Recorded(e)] else FoundIn(registry, p)
    {
      SaveHolds(registry[o.session], o.task, e, stage, p.task);
    }
  }

  lemma {:induction false} DecodePrefix(ds: seq<Dao>, n: nat, data: seq<Byte>)
    requires n <= |ds|
    ensures Decode(ds, data).Some? ==> Decode(ds[..n], data).Some?
    decreases |ds|
  {
    if n == |ds| {
      assert ds[..n] == ds;
    } else {
      DecodePrefix(ds[..|ds| - 1], n, data);
      assert ds[..|ds| - 1][..n] == ds[..n];
    }
  }

  lemma {:induction false} DecodedStarts(ds: seq<Dao>, data: seq<Byte>)
    requires Decode(ds, data).Some?
    ensures forall d :: d in ds ==> d.message.start <= d.message.end
  {
    if ds != [] { DecodedStarts(ds[..|ds| - 1], data); }
  }
}
