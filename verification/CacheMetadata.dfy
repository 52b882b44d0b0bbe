/** What metadata says of stored objects in every run, also where a prefix delete overlapped a
    creation: wherever both exist, metadata describes parts that are stored. So a compare-and-delete
    erases what it was told to erase and nothing else. */
module CacheMetadata {
  import opened ObjectKeys
  import opened CacheProtocol
  import opened CacheLocks
  import opened CacheHistory
  import opened CacheAgreement

  // ---- The invariant ---------------------------------------------------------------------

  ghost predicate KeyTrue(s: State, k: Key)
  {
    k in s.meta && k in s.store && !Excused(s, k) ==> s.meta[k] == MetaOf(s.store[k])
  }

  /** The object, if it is still there, has the version and creation time that are expected. */
  predicate AsExpected(s: State, key: Key, version: nat, creationTime: int)
  {
    key in s.store ==>
      s.store[key].parts != [] && |s.store[key].parts| == version && s.store[key].parts[0].creationTime == creationTime
  }

  predicate TaskTrue(s: State, t: Task)
  {
    match t.req
    case Put(key, _, _) => Working(t) ==> key !in s.meta
    case Patch(key, _, _) => t.phase.Stored? && t.phase.seen.Some? && key in s.meta ==>
      s.meta[key] == MetaOf(t.phase.seen.value)
    case CompareAndDelete(key, version, creationTime) =>
      && (t.phase.Checked? ==> ProperKey(key) && AsExpected(s, key, version, creationTime))
      && (t.phase.Stored? ==> key !in s.store)
    case Delete(_) => t.phase.Stored? ==> forall k :: k in t.plan ==> k !in s.store
    case Get(_, _) => true
  }

  ghost predicate TrueInv(s: State)
  {
    && Inv(s)
    && (forall k :: KeyTrue(s, k))
    && (forall o :: 0 <= o < |s.ops| ==> TaskTrue(s, s.ops[o]))
  }

  // ---- Frames ----------------------------------------------------------------------------

  /** Nothing new is known or stored under `k`. */
  predicate NothingNew(s: State, t: State, k: Key)
  {
    && (k in t.store ==> k in s.store && t.store[k] == s.store[k])
    && (k in t.meta ==> k in s.meta && t.meta[k] == s.meta[k])
  }

  predicate OneMoved(s: State, t: State, o: nat)
  {
    && o < |t.ops| && (|t.ops| == |s.ops| || (|t.ops| == |s.ops| + 1 && o == |s.ops|))
    && (forall p :: 0 <= p < |s.ops| && p != o ==> t.ops[p] == s.ops[p])
  }

  lemma KeyFrame(s: State, t: State, o: nat, k: Key)
    requires OneMoved(s, t, o) && KeyTrue(s, k) && NothingNew(s, t, k)
    requires o < |s.ops| && Excuses(s.ops[o], k) ==> Excuses(t.ops[o], k) || k !in t.meta
    ensures KeyTrue(t, k)
  {
    if Excused(s, k) {
      var p :| 0 <= p < |s.ops| && Excuses(s.ops[p], k);
      assert p != o ==> Excuses(t.ops[p], k);
    }
  }

  lemma TaskFrame(s: State, t: State, task: Task)
    requires TaskTrue(s, task)
    requires !task.req.Delete? && Working(task) ==> NothingNew(s, t, task.req.key)
    requires task.req.Delete? && task.phase.Stored? ==> forall k :: k in task.plan && k !in s.store ==> k !in t.store
    ensures TaskTrue(t, task)
  {
  }

  /** A step that adds nothing under any key. */
  lemma LosingStep(s: State, t: State, o: nat)
    requires TrueInv(s) && Inv(t) && OneMoved(s, t, o) && TaskTrue(t, t.ops[o])
    requires forall k :: NothingNew(s, t, k)
    requires o < |s.ops| ==> forall k :: Excuses(s.ops[o], k) ==> k !in t.meta
    ensures TrueInv(t)
  {
    forall k ensures KeyTrue(t, k) {
      assert KeyTrue(s, k);
      KeyFrame(s, t, o, k);
    }
    forall p | 0 <= p < |t.ops| ensures TaskTrue(t, t.ops[p]) {
      if p != o {
        forall k | k in s.ops[p].plan && k !in s.store ensures k !in t.store { assert NothingNew(s, t, k); }
        TaskFrame(s, t, s.ops[p]);
      }
    }
  }

  /** The other operations after `o` wrote something new under the key it holds. */
  lemma OtherTask(s: State, t: State, o: nat, p: nat)
    requires LockInv(s) && o < |s.ops| && p < |s.ops| && p != o && TaskTrue(s, s.ops[p])
    requires !s.ops[o].req.Get? && !s.ops[o].req.Delete? && Working(s.ops[o])
    requires forall k :: k != s.ops[o].req.key ==> NothingNew(s, t, k)
    ensures TaskTrue(t, s.ops[p])
  {
    var key, task := s.ops[o].req.key, s.ops[p];
    assert TaskOk(s.ops[o]) && TaskOk(task);
    HoldsOwnKey(s.ops[o]);
    if Holds(task, key) { Exclusive(s, key, o, p); }
    if !task.req.Delete? && Working(task) { HoldsOwnKey(task); }
    if task.req.Delete? && task.phase.Stored? {
      forall k | k in task.plan && k !in s.store ensures k !in t.store {
        DeleteHoldsPlan(task, k);
        assert NothingNew(s, t, k);
      }
    }
    TaskFrame(s, t, task);
  }

  lemma OwnKeyStep(s: State, t: State, o: nat)
    requires TrueInv(s) && Inv(t) && o < |s.ops| && OneMoved(s, t, o) && |t.ops| == |s.ops| && TaskTrue(t, t.ops[o])
    requires !s.ops[o].req.Get? && !s.ops[o].req.Delete? && Working(s.ops[o])
    requires forall k :: k != s.ops[o].req.key ==> NothingNew(s, t, k)
    requires KeyTrue(t, s.ops[o].req.key)
    ensures TrueInv(t)
  {
    assert TaskOk(s.ops[o]);
    HoldsOwnKey(s.ops[o]);
    forall k ensures KeyTrue(t, k) {
      assert KeyTrue(s, k);
      if k != s.ops[o].req.key { KeyFrame(s, t, o, k); }
    }
    forall p | 0 <= p < |t.ops| ensures TaskTrue(t, t.ops[p]) {
      if p != o { OtherTask(s, t, o, p); }
    }
  }

  // ---- Steps -----------------------------------------------------------------------------

  /** What the compare finds in metadata is true of the object, if there is one. */
  lemma CompareTrue(s: State, o: nat)
    requires TrueInv(s) && o < |s.ops| && s.ops[o].req.CompareAndDelete? && s.ops[o].phase.Locked?
    ensures var req := s.ops[o].req;
      CheckOutcome(s, s.ops[o]).Checked? ==>
        ProperKey(req.key) && AsExpected(s, req.key, req.version, req.creationTime)
  {
    NotExcused(s, o);
    assert KeyTrue(s, s.ops[o].req.key) && KeyHistory(s, s.ops[o].req.key);
  }

  lemma CheckTrue(s: State, o: nat, ok: bool)
    requires TrueInv(s) && Enabled(s, Check(o, ok))
    ensures TaskTrue(Apply(s, Check(o, ok)), Apply(s, Check(o, ok)).ops[o])
  {
    assert TaskTrue(s, s.ops[o]);
    if s.ops[o].req.CompareAndDelete? { CompareTrue(s, o); }
  }

  lemma LockTrue(s: State, e: Event)
    requires TrueInv(s) && Enabled(s, e) && (e.Snapshot? || e.Enqueue? || e.Grant? || e.Release?)
    ensures TaskTrue(Apply(s, e), Apply(s, e).ops[e.op])
  {
  }

  lemma PointTrue(s: State, e: Event)
    requires TrueInv(s) && Enabled(s, e) && (e.Probe? || e.Send? || e.Finish?)
    ensures TaskTrue(Apply(s, e), Apply(s, e).ops[e.op])
  {
    assert TaskOk(s.ops[e.op]);
  }

  lemma QuietTaskTrue(s: State, e: Event)
    requires TrueInv(s) && Enabled(s, e) && !e.Write? && !e.Record? && !e.Start?
    ensures TaskTrue(Apply(s, e), Apply(s, e).ops[e.op])
  {
    match e
    case Check(o, ok) => CheckTrue(s, o, ok);
    case Probe(_) => PointTrue(s, e);
    case Send(_, _) => PointTrue(s, e);
    case Finish(_) => PointTrue(s, e);
    case _ => LockTrue(s, e);
  }

  lemma QuietMoves(s: State, e: Event)
    requires Enabled(s, e) && !e.Write? && !e.Record? && !e.Start?
    ensures OneMoved(s, Apply(s, e), e.op) && !s.ops[e.op].phase.Stored?
    ensures Apply(s, e).store == s.store && Apply(s, e).meta == s.meta
  {
  }

  lemma QuietStepTrue(s: State, e: Event)
    requires TrueInv(s) && Enabled(s, e) && !e.Write? && !e.Record? && !e.Start?
    ensures TrueInv(Apply(s, e))
  {
    InvStep(s, e);
    QuietMoves(s, e);
    QuietTaskTrue(s, e);
    LosingStep(s, Apply(s, e), e.op);
  }

  lemma StartTrue(s: State, req: Request)
    requires TrueInv(s) && Enabled(s, Start(req))
    ensures TrueInv(Apply(s, Start(req)))
  {
    InvStep(s, Start(req));
    LosingStep(s, Apply(s, Start(req)), |s.ops|);
  }

  lemma PutWriteTrue(s: State, o: nat)
    requires TrueInv(s) && Enabled(s, Write(o, true)) && s.ops[o].req.Put?
    ensures TrueInv(ApplyWrite(s, o, true))
  {
    InvStep(s, Write(o, true));
    assert TaskTrue(s, s.ops[o]);
    OwnKeyStep(s, ApplyWrite(s, o, true), o);
  }

  lemma PatchWriteTrue(s: State, o: nat)
    requires TrueInv(s) && Enabled(s, Write(o, true)) && s.ops[o].req.Patch? && s.ops[o].req.key in s.store
    ensures TrueInv(ApplyWrite(s, o, true))
  {
    var t, task := ApplyWrite(s, o, true), s.ops[o];
    InvStep(s, Write(o, true));
    assert TaskOk(task) && TaskHistory(s, task);
    NotExcused(s, o);
    assert KeyTrue(s, task.req.key);
    HoldsOwnKey(task);
    assert Excuses(t.ops[o], task.req.key);
    OwnKeyStep(s, t, o);
  }

  lemma EraseTrue(s: State, o: nat, ok: bool)
    requires TrueInv(s) && Enabled(s, Write(o, ok))
    requires !(ok && s.ops[o].req.Put?) && !(ok && s.ops[o].req.Patch? && s.ops[o].req.key in s.store)
    ensures TrueInv(ApplyWrite(s, o, ok))
  {
    var t, task := ApplyWrite(s, o, ok), s.ops[o];
    InvStep(s, Write(o, ok));
    WriteMoves(s, o, ok);
    WriteMetaKept(s, o, ok);
    assert TaskOk(task) && TaskTrue(s, task) && PlanCovered(task);
    if task.req.CompareAndDelete? { OwnErase(s, task.req.key); }
    forall k ensures NothingNew(s, t, k) { ErasedKept(s, o, ok, k); }
    LosingStep(s, t, o);
  }

  lemma PutRecordTrue(s: State, o: nat)
    requires TrueInv(s) && Enabled(s, Record(o)) && s.ops[o].req.Put?
    ensures TrueInv(ApplyRecord(s, o))
  {
    InvStep(s, Record(o));
    assert TaskHistory(s, s.ops[o]);
    NewMetaAgrees(s.ops[o].req.dataType, s.ops[o].req.part);
    OwnKeyStep(s, ApplyRecord(s, o), o);
  }

  lemma PatchRecordTrue(s: State, o: nat)
    requires TrueInv(s) && Enabled(s, Record(o)) && s.ops[o].req.Patch?
    ensures TrueInv(ApplyRecord(s, o))
  {
    InvStep(s, Record(o));
    assert TaskOk(s.ops[o]) && TaskHistory(s, s.ops[o]);
    PatchedMetaAgrees(s.ops[o].phase.seen.value, s.ops[o].req.part);
    OwnKeyStep(s, ApplyRecord(s, o), o);
  }

  lemma ClearTrue(s: State, o: nat)
    requires TrueInv(s) && Enabled(s, Record(o)) && (s.ops[o].req.CompareAndDelete? || s.ops[o].req.Delete?)
    ensures TrueInv(ApplyRecord(s, o))
  {
    var t, task := ApplyRecord(s, o), s.ops[o];
    InvStep(s, Record(o));
    assert TaskOk(task) && PlanCovered(task);
    forall k | Excuses(task, k) ensures k !in t.meta {
      if task.req.Delete? { DeleteHoldsPlan(task, k); } else { HoldsOwnKey(task); }
    }
    LosingStep(s, t, o);
  }

  /** Every step keeps metadata true of what is stored, whatever deletes overlap. */
  lemma TrueStep(s: State, e: Event)
    requires TrueInv(s) && Enabled(s, e)
    ensures TrueInv(Apply(s, e))
  {
    match e
    case Write(o, ok) =>
      if ok && s.ops[o].req.Put? { PutWriteTrue(s, o); }
      else if ok && s.ops[o].req.Patch? && s.ops[o].req.key in s.store { PatchWriteTrue(s, o); }
      else { EraseTrue(s, o, ok); }
    case Record(o) =>
      if s.ops[o].req.Put? {
        PutRecordTrue(s, o);
      } else if s.ops[o].req.Patch? {
        PatchRecordTrue(s, o);
      } else {
        ClearTrue(s, o);
      }
    case Start(req) => StartTrue(s, req);
    case _ => QuietStepTrue(s, e);
  }

  lemma LoadedTrue(store: map<Key, Object>)
    requires WellStored(store)
    ensures TrueInv(Load(store))
  {
    LoadedAgrees(store);
  }

  lemma {:induction false} RunKeepsTrue(s: State, events: seq<Event>)
    requires TrueInv(s) && IsRun(s, events)
    ensures TrueInv(After(s, events))
    decreases |events|
  {
    if events != [] {
      TrueStep(s, events[0]);
      RunKeepsTrue(Apply(s, events[0]), events[1..]);
    }
  }

  // ---- What follows in every run ---------------------------------------------------------

  /** Metadata describes the first parts of the stored object: all of them, or all but the one that
      a patch has written and not recorded yet. */
  predicate Describes(m: Meta, o: Object)
  {
    1 <= m.version <= |o.parts| <= m.version + 1 && m == MetaOf(Object(o.dataType, o.parts[..m.version]))
  }

  lemma DescribesKey(s: State, k: Key)
    requires TrueInv(s) && k in s.meta && k in s.store
    ensures Describes(s.meta[k], s.store[k])
    ensures !Excused(s, k) ==> s.meta[k] == MetaOf(s.store[k])
  {
    assert KeyTrue(s, k) && KeyHistory(s, k);
    if Excused(s, k) {
      var p :| 0 <= p < |s.ops| && Excuses(s.ops[p], k);
      var task := s.ops[p];
      assert TaskOk(task) && TaskTrue(s, task) && TaskHistory(s, task);
      if task.req.Delete? {
        DeleteHoldsPlan(task, k);
      } else {
        HoldsOwnKey(task);
        var seen := task.phase.seen.value;
        assert s.store[k].parts[..|seen.parts|] == seen.parts;
      }
    } else {
      var parts := s.store[k].parts;
      assert parts[..|parts|] == parts;
    }
  }

  /** In every run from a loaded store, whatever deletes overlap: wherever an object is stored and
      in metadata, metadata describes its first parts. */
  lemma MetadataDescribes(store: map<Key, Object>, events: seq<Event>, k: Key)
    requires WellStored(store) && IsRun(Load(store), events)
    ensures var s := After(Load(store), events); k in s.meta && k in s.store ==> Describes(s.meta[k], s.store[k])
  {
    LoadedTrue(store);
    RunKeepsTrue(Load(store), events);
    var s := After(Load(store), events);
    if k in s.meta && k in s.store { DescribesKey(s, k); }
  }

  /** What the storage call of a compare-and-delete does. */
  lemma ErasesAsExpected(s: State, o: nat)
    requires TrueInv(s) && Enabled(s, Write(o, true)) && s.ops[o].req.CompareAndDelete?
    ensures var req := s.ops[o].req;
      ApplyWrite(s, o, true).store == s.store - {req.key} && AsExpected(s, req.key, req.version, req.creationTime)
  {
    assert TaskOk(s.ops[o]) && TaskTrue(s, s.ops[o]);
    OwnErase(s, s.ops[o].req.key);
  }

  /** In every run from a loaded store, whatever deletes overlap: a compare-and-delete that reaches
      its storage call erases its own object only, and that object, if there is one, has the version
      and creation time that were expected. */
  lemma CompareAndDeleteIsExact(store: map<Key, Object>, events: seq<Event>, o: nat)
    requires WellStored(store) && IsRun(Load(store), events)
    requires Enabled(After(Load(store), events), Write(o, true))
    requires After(Load(store), events).ops[o].req.CompareAndDelete?
    ensures var s := After(Load(store), events);
      var req := s.ops[o].req;
      ApplyWrite(s, o, true).store == s.store - {req.key} && AsExpected(s, req.key, req.version, req.creationTime)
  {
    LoadedTrue(store);
    RunKeepsTrue(Load(store), events);
    ErasesAsExpected(After(Load(store), events), o);
  }
}
