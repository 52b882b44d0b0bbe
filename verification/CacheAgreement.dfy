/** When the metadata map agrees with the store: exactly as long as no prefix delete reaches an
    object whose lock it does not hold. */
module CacheAgreement {
  import opened Wrappers
  import opened ObjectKeys
  import opened CacheProtocol
  import opened CacheLocks
  import opened CacheHistory

  // ---- Agreement -------------------------------------------------------------------------

  /** In metadata exactly when in the store, with the version, size, time and type it has there. */
  predicate Consistent(s: State, k: Key)
  {
    (k in s.meta <==> k in s.store) && (k in s.store ==> s.meta[k] == MetaOf(s.store[k]))
  }

  /** An operation between its storage call and its metadata update, for the keys it holds. */
  predicate Excuses(t: Task, k: Key) { t.phase.Stored? && Holds(t, k) }

  ghost predicate Excused(s: State, k: Key) { exists o :: 0 <= o < |s.ops| && Excuses(s.ops[o], k) }

  /** How a held key may differ, by the program point of its holder. */
  predicate TaskAgrees(s: State, t: Task)
  {
    match t.req
    case Put(key, dataType, part) =>
      && (Working(t) ==> key !in s.meta)
      && (t.phase.Checked? ==> key !in s.store)
      && (t.phase.Stored? ==> key in s.store && s.store[key] == Object(dataType, [part]))
    case Patch(key, _, part) =>
      && (t.phase.Checked? ==> key in s.store && Some(s.store[key]) == t.phase.seen)
      && (t.phase.Stored? && t.phase.seen.Some? ==>
          && key in s.store && s.store[key] == Extend(t.phase.seen.value, part)
          && key in s.meta && s.meta[key] == MetaOf(t.phase.seen.value))
    case CompareAndDelete(key, version, creationTime) =>
      && (t.phase.Checked? ==>
          key in s.meta && s.meta[key].version == version && s.meta[key].creationTime == creationTime)
      && (t.phase.Stored? ==> key !in s.store)
    case Delete(_) => t.phase.Stored? ==> forall k :: k in t.plan ==> k !in s.store
    case Get(key, _) => t.phase.Sending? ==> key in s.store && s.store[key] == t.phase.found
  }

  ghost predicate KeyAgrees(s: State, k: Key) { Excused(s, k) || Consistent(s, k) }

  /** Every key whose lock is free agrees; a held key differs only as its holder says. */
  ghost predicate Agree(s: State)
  {
    && (forall k :: KeyAgrees(s, k))
    && (forall o :: 0 <= o < |s.ops| ==> TaskAgrees(s, s.ops[o]))
  }

  ghost predicate ProperInv(s: State)
  {
    && (forall k :: k in s.meta ==> ProperKey(k))
    && (forall o :: 0 <= o < |s.ops| ==> Admissible(s.ops[o].req) && PlanCovered(s.ops[o]))
  }

  /** A delete locks nothing that its filter does not cover. */
  predicate PlanCovered(t: Task) { t.req.Delete? ==> forall k :: k in t.plan ==> Matches(t.req.filter, k) }

  /** Everything that holds in every run, deletes or not. */
  ghost predicate Inv(s: State) { HistoryInv(s) && ProperInv(s) }

  predicate SamePlans(s: State, t: State)
  {
    |s.ops| <= |t.ops| && forall p :: 0 <= p < |s.ops| ==> t.ops[p].plan == s.ops[p].plan
  }

  lemma LockRequestsKept(s: State, e: Event)
    requires Enabled(s, e) && (e.Start? || e.Snapshot? || e.Enqueue? || e.Grant?)
    ensures SameRequests(s, Apply(s, e)) && (!e.Start? ==> |Apply(s, e).ops| == |s.ops|)
    ensures Apply(s, e).meta == s.meta && (!e.Snapshot? ==> SamePlans(s, Apply(s, e)))
  {
  }

  lemma WorkRequestsKept(s: State, e: Event)
    requires Enabled(s, e) && (e.Probe? || e.Check? || e.Send? || e.Release? || e.Finish?)
    ensures SameRequests(s, Apply(s, e)) && |Apply(s, e).ops| == |s.ops|
    ensures Apply(s, e).meta == s.meta && SamePlans(s, Apply(s, e))
  {
  }

  lemma WriteMetaKept(s: State, o: nat, ok: bool)
    requires o < |s.ops|
    ensures ApplyWrite(s, o, ok).meta == s.meta
  {
  }

  lemma WriteRequestsKept(s: State, o: nat, ok: bool)
    requires Enabled(s, Write(o, ok))
    ensures var t := ApplyWrite(s, o, ok);
      SameRequests(s, t) && |t.ops| == |s.ops| && t.meta == s.meta && SamePlans(s, t)
  {
    WriteMetaKept(s, o, ok);
    WriteMoves(s, o, ok);
    MovedRequestsKept(s, ApplyWrite(s, o, ok), o);
  }

  lemma RecordRequestsKept(s: State, o: nat)
    requires Enabled(s, Record(o))
    ensures var t := ApplyRecord(s, o); SameRequests(s, t) && |t.ops| == |s.ops| && SamePlans(s, t)
  {
    RecordMoves(s, o);
    MovedRequestsKept(s, ApplyRecord(s, o), o);
  }

  lemma MovedRequestsKept(s: State, t: State, o: nat)
    requires Moved(s, t, o)
    ensures SameRequests(s, t) && |t.ops| == |s.ops| && SamePlans(s, t)
  {
  }

  lemma RequestsKept(s: State, e: Event)
    requires Enabled(s, e)
    ensures SameRequests(s, Apply(s, e))
    ensures !e.Start? ==> |Apply(s, e).ops| == |s.ops|
    ensures !e.Record? ==> Apply(s, e).meta == s.meta
    ensures !e.Snapshot? ==> SamePlans(s, Apply(s, e))
  {
    match e
    case Write(o, ok) => WriteRequestsKept(s, o, ok);
    case Record(o) => RecordRequestsKept(s, o);
    case Start(_) => LockRequestsKept(s, e);
    case Snapshot(_, _) => LockRequestsKept(s, e);
    case Enqueue(_) => LockRequestsKept(s, e);
    case Grant(_) => LockRequestsKept(s, e);
    case _ => WorkRequestsKept(s, e);
  }

  lemma RecordedKeys(s: State, o: nat, k: Key)
    requires o < |s.ops| && k in ApplyRecord(s, o).meta
    ensures k in s.meta || Writes(s.ops[o].req, k)
  {
  }

  lemma ProperStep(s: State, e: Event)
    requires ProperInv(s) && Enabled(s, e)
    ensures ProperInv(Apply(s, e))
  {
    var t := Apply(s, e);
    RequestsKept(s, e);
    forall k | k in t.meta ensures ProperKey(k) {
      if e.Record? {
        RecordedKeys(s, e.op, k);
        assert Admissible(s.ops[e.op].req);
      }
    }
    forall p | 0 <= p < |t.ops| ensures Admissible(t.ops[p].req) && PlanCovered(t.ops[p]) {
      if p < |s.ops| { assert t.ops[p].req == s.ops[p].req; }
    }
  }

  lemma InvStep(s: State, e: Event)
    requires Inv(s) && Enabled(s, e)
    ensures Inv(Apply(s, e))
  {
    HistoryStep(s, e);
    ProperStep(s, e);
  }

  // ---- The step that breaks agreement ----------------------------------------------------

  /** A key that a delete covers without holding its lock. */
  predicate Exposed(t: Task, k: Key) { t.req.Delete? && Matches(t.req.filter, k) && k !in t.plan }

  /** A delete's storage call while an object it covers but did not lock is in the store, or its
      metadata update while such an object is in the store and the metadata map. */
  ghost predicate Hazard(s: State, e: Event)
  {
    match e
    case Write(o, ok) => ok && o < |s.ops| && exists k :: k in s.store && Exposed(s.ops[o], k)
    case Record(o) => o < |s.ops| && exists k :: k in s.store && k in s.meta && Exposed(s.ops[o], k)
    case _ => false
  }

  // ---- Frames ----------------------------------------------------------------------------

  predicate SameAt(s: State, t: State, k: Key)
  {
    && (k in t.store <==> k in s.store) && (k in s.store ==> t.store[k] == s.store[k])
    && (k in t.meta <==> k in s.meta) && (k in s.meta ==> t.meta[k] == s.meta[k])
  }

  /** A working operation only depends on the keys it holds. */
  lemma TaskAgreesFrame(s: State, t: State, task: Task)
    requires TaskOk(task) && TaskAgrees(s, task)
    requires Working(task) ==> forall k :: Holds(task, k) ==> SameAt(s, t, k)
    ensures TaskAgrees(t, task)
  {
    if Working(task) {
      assert task.plan[0..|task.plan|] == task.plan;
      if !task.req.Delete? {
        assert task.req.key in task.plan[0..1];
        assert Holds(task, task.req.key);
      } else {
        assert forall k :: k in task.plan ==> Holds(task, k);
      }
    }
  }

  /** The other operations are not affected by changes to keys that `o` holds as a writer. */
  lemma OthersAgree(s: State, t: State, o: nat)
    requires LockInv(s) && Agree(s) && o < |s.ops| == |t.ops| && t.ops == s.ops[o := t.ops[o]]
    requires !s.ops[o].req.Get?
    requires forall k :: !Holds(s.ops[o], k) ==> SameAt(s, t, k)
    requires TaskAgrees(t, t.ops[o])
    ensures forall p :: 0 <= p < |t.ops| ==> TaskAgrees(t, t.ops[p])
  {
    forall p | 0 <= p < |t.ops| ensures TaskAgrees(t, t.ops[p]) {
      if p != o {
        forall k | Holds(s.ops[p], k) ensures SameAt(s, t, k) {
          if Holds(s.ops[o], k) { Exclusive(s, k, o, p); }
        }
        TaskAgreesFrame(s, t, s.ops[p]);
      }
    }
  }

  lemma KeyFrameAgrees(s: State, t: State, o: nat, k: Key)
    requires |s.ops| <= |t.ops| && o < |t.ops| && (forall p :: 0 <= p < |s.ops| && p != o ==> t.ops[p] == s.ops[p])
    requires KeyAgrees(s, k) && SameAt(s, t, k)
    requires o < |s.ops| && Excuses(s.ops[o], k) ==> Excuses(t.ops[o], k)
    ensures KeyAgrees(t, k)
  {
    if Excused(s, k) {
      var p :| 0 <= p < |s.ops| && Excuses(s.ops[p], k);
      assert Excuses(t.ops[p], k);
    }
  }

  /** Steps that change neither the store nor the metadata map. */
  lemma QuietAgree(s: State, t: State, o: nat)
    requires LockInv(s) && Agree(s) && t.store == s.store && t.meta == s.meta
    requires |s.ops| <= |t.ops| && o < |t.ops|
    requires forall p :: 0 <= p < |t.ops| && p != o ==> p < |s.ops| && t.ops[p] == s.ops[p]
    requires o < |s.ops| ==> !s.ops[o].phase.Stored?
    requires TaskAgrees(t, t.ops[o])
    ensures Agree(t)
  {
    forall k ensures KeyAgrees(t, k) {
      assert KeyAgrees(s, k);
      KeyFrameAgrees(s, t, o, k);
    }
    forall p | 0 <= p < |t.ops| ensures TaskAgrees(t, t.ops[p]) {
      if p != o {
        var task := t.ops[p];
        assert p < |s.ops| && task == s.ops[p];
        TaskAgreesFrame(s, t, task);
      }
    }
  }

  // ---- Storage calls ---------------------------------------------------------------------

  lemma HoldsOwnKey(t: Task)
    requires TaskOk(t) && !t.req.Delete? && (Working(t) || t.phase.Locked?)
    ensures Holds(t, t.req.key) && forall k :: Holds(t, k) ==> k == t.req.key
  {
    assert t.plan[0..1] == [t.req.key];
  }

  /** A step of a writer that changes only its own key. */
  lemma OwnKeyAgree(s: State, t: State, o: nat)
    requires LockInv(s) && Agree(s) && o < |s.ops| == |t.ops|
    requires t.ops == s.ops[o := s.ops[o].(phase := t.ops[o].phase)]
    requires !s.ops[o].req.Get? && !s.ops[o].req.Delete? && Working(s.ops[o])
    requires forall k :: k != s.ops[o].req.key ==> SameAt(s, t, k)
    requires TaskAgrees(t, t.ops[o])
    requires t.ops[o].phase.Stored? || Consistent(t, s.ops[o].req.key)
    ensures Agree(t)
  {
    HoldsOwnKey(s.ops[o]);
    OthersAgree(s, t, o);
    forall k ensures KeyAgrees(t, k) {
      assert KeyAgrees(s, k);
      if k == s.ops[o].req.key {
        if t.ops[o].phase.Stored? { assert Excuses(t.ops[o], k); }
      } else {
        KeyFrameAgrees(s, t, o, k);
      }
    }
  }

  /** A compare-and-delete erases its own object only. */
  lemma OwnErase(s: State, key: Key)
    requires ProperKey(key)
    ensures TryFrom(key).Ok? && forall k :: k in Erase(s.store, TryFrom(key).value) <==> k in s.store && k != key
    ensures forall k :: k in Erase(s.store, TryFrom(key).value) ==> Erase(s.store, TryFrom(key).value)[k] == s.store[k]
  {
    StoredKeyMatchesItself(key);
  }

  lemma PutWriteAgrees(s: State, o: nat)
    requires LockInv(s) && Agree(s) && Enabled(s, Write(o, true)) && s.ops[o].req.Put?
    ensures Agree(ApplyWrite(s, o, true))
  {
    assert TaskAgrees(s, s.ops[o]);
    OwnKeyAgree(s, ApplyWrite(s, o, true), o);
  }

  lemma PatchWriteAgrees(s: State, o: nat)
    requires LockInv(s) && Agree(s) && Enabled(s, Write(o, true)) && s.ops[o].req.Patch?
    ensures Agree(ApplyWrite(s, o, true))
  {
    var task := s.ops[o];
    assert TaskOk(task) && TaskAgrees(s, task);
    assert !Excused(s, task.req.key) by { NotExcused(s, o); }
    assert KeyAgrees(s, task.req.key);
    OwnKeyAgree(s, ApplyWrite(s, o, true), o);
  }

  /** The key of an operation that has not reached its storage call is not excused. */
  lemma NotExcused(s: State, o: nat)
    requires LockInv(s) && o < |s.ops| && !s.ops[o].req.Delete? && !s.ops[o].phase.Stored?
    requires Working(s.ops[o]) || s.ops[o].phase.Locked?
    ensures !Excused(s, s.ops[o].req.key)
  {
    var k := s.ops[o].req.key;
    assert TaskOk(s.ops[o]);
    HoldsOwnKey(s.ops[o]);
    if Excused(s, k) {
      var p :| 0 <= p < |s.ops| && Excuses(s.ops[p], k);
      assert TaskOk(s.ops[p]);
      Exclusive(s, k, p, o);
    }
  }

  lemma CompareAndDeleteWriteAgrees(s: State, o: nat)
    requires Inv(s) && Agree(s) && Enabled(s, Write(o, true)) && s.ops[o].req.CompareAndDelete?
    ensures Agree(ApplyWrite(s, o, true))
  {
    assert TaskAgrees(s, s.ops[o]);
    OwnErase(s, s.ops[o].req.key);
    OwnKeyAgree(s, ApplyWrite(s, o, true), o);
  }

  lemma WriteAgrees(s: State, o: nat, ok: bool)
    requires Inv(s) && Agree(s) && Enabled(s, Write(o, ok)) && !s.ops[o].req.Delete?
    ensures Agree(ApplyWrite(s, o, ok))
  {
    if !ok {
      QuietAgree(s, ApplyWrite(s, o, ok), o);
    } else {
      match s.ops[o].req
      case Put(_, _, _) => PutWriteAgrees(s, o);
      case Patch(_, _, _) => PatchWriteAgrees(s, o);
      case CompareAndDelete(_, _, _) => CompareAndDeleteWriteAgrees(s, o);
    }
  }

  lemma PutRecordAgrees(s: State, o: nat)
    requires LockInv(s) && Agree(s) && Enabled(s, Record(o)) && s.ops[o].req.Put?
    ensures Agree(ApplyRecord(s, o))
  {
    assert TaskAgrees(s, s.ops[o]);
    NewMetaAgrees(s.ops[o].req.dataType, s.ops[o].req.part);
    OwnKeyAgree(s, ApplyRecord(s, o), o);
  }

  lemma PatchRecordAgrees(s: State, o: nat)
    requires HistoryInv(s) && Agree(s) && Enabled(s, Record(o)) && s.ops[o].req.Patch?
    ensures Agree(ApplyRecord(s, o))
  {
    var task := s.ops[o];
    assert TaskOk(task) && TaskAgrees(s, task) && TaskHistory(s, task);
    PatchedMetaAgrees(task.phase.seen.value, task.req.part);
    OwnKeyAgree(s, ApplyRecord(s, o), o);
  }

  lemma CompareAndDeleteRecordAgrees(s: State, o: nat)
    requires LockInv(s) && Agree(s) && Enabled(s, Record(o)) && s.ops[o].req.CompareAndDelete?
    ensures Agree(ApplyRecord(s, o))
  {
    assert TaskAgrees(s, s.ops[o]);
    OwnKeyAgree(s, ApplyRecord(s, o), o);
  }

  lemma RecordAgrees(s: State, o: nat)
    requires Inv(s) && Agree(s) && Enabled(s, Record(o)) && !s.ops[o].req.Delete?
    ensures Agree(ApplyRecord(s, o))
  {
    match s.ops[o].req
    case Put(_, _, _) => PutRecordAgrees(s, o);
    case Patch(_, _, _) => PatchRecordAgrees(s, o);
    case CompareAndDelete(_, _, _) => CompareAndDeleteRecordAgrees(s, o);
  }

  // ---- Prefix deletes --------------------------------------------------------------------

  lemma DeleteHoldsPlan(t: Task, k: Key)
    requires TaskOk(t) && t.req.Delete? && (t.phase.Locked? || t.phase.Stored?)
    ensures Holds(t, k) <==> k in t.plan
  {
    assert t.plan[0..|t.plan|] == t.plan;
  }

  lemma DeleteWriteAgrees(s: State, o: nat)
    requires Inv(s) && Agree(s) && Enabled(s, Write(o, true)) && s.ops[o].req.Delete?
    requires !Hazard(s, Write(o, true))
    ensures Agree(ApplyWrite(s, o, true))
  {
    var t := ApplyWrite(s, o, true);
    var task := s.ops[o];
    assert TaskOk(task) && PlanCovered(task);
    forall k | !Holds(task, k) ensures SameAt(s, t, k) {
      DeleteHoldsPlan(task, k);
      assert k in s.store ==> !Exposed(task, k);
    }
    OthersAgree(s, t, o);
    forall k ensures KeyAgrees(t, k) {
      assert KeyAgrees(s, k);
      if Holds(task, k) { assert Excuses(t.ops[o], k); } else { KeyFrameAgrees(s, t, o, k); }
    }
  }

  /** After a storage call and before the metadata update of whoever holds it, a key in the
      metadata map but not in the store was erased by its holder. */
  lemma ErasedByHolder(s: State, t: State, o: nat, k: Key)
    requires LockInv(s) && Agree(s) && o < |s.ops| == |t.ops| && t.ops == s.ops[o := t.ops[o]]
    requires k in s.meta && k !in s.store && !Holds(s.ops[o], k)
    ensures Excused(t, k)
  {
    assert KeyAgrees(s, k);
    var p :| 0 <= p < |s.ops| && Excuses(s.ops[p], k);
    assert Excuses(t.ops[p], k);
  }

  /** Clearing metadata of a key that is not stored disturbs no operation that holds it. */
  lemma ClearedTask(s: State, t: State, task: Task)
    requires TaskOk(task) && TaskAgrees(s, task) && t.store == s.store
    requires forall k :: Holds(task, k) ==> SameAt(s, t, k) || (k !in s.store && k !in t.meta)
    requires task.req.CompareAndDelete? && task.phase.Checked? ==> task.req.key in s.store
    ensures TaskAgrees(t, task)
  {
    if Working(task) && !task.req.Delete? { HoldsOwnKey(task); }
  }

  lemma DeleteRecordTasks(s: State, o: nat)
    requires Inv(s) && Agree(s) && Enabled(s, Record(o)) && s.ops[o].req.Delete?
    requires !Hazard(s, Record(o))
    ensures var t := ApplyRecord(s, o); forall p :: 0 <= p < |t.ops| ==> TaskAgrees(t, t.ops[p])
  {
    var t := ApplyRecord(s, o);
    forall p | 0 <= p < |t.ops| ensures TaskAgrees(t, t.ops[p]) {
      if p != o {
        var task := s.ops[p];
        assert TaskOk(task) && TaskOk(s.ops[o]) && TaskAgrees(s, task);
        forall k | Holds(task, k) ensures SameAt(s, t, k) || (k !in s.store && k !in t.meta) {
          if Holds(s.ops[o], k) { Exclusive(s, k, o, p); }
          DeleteHoldsPlan(s.ops[o], k);
          assert !(k in s.store && k in s.meta && Exposed(s.ops[o], k));
        }
        if task.req.CompareAndDelete? && task.phase.Checked? {
          NotExcused(s, p);
          assert KeyAgrees(s, task.req.key);
        }
        ClearedTask(s, t, task);
      }
    }
  }

  lemma DeleteRecordAgrees(s: State, o: nat)
    requires Inv(s) && Agree(s) && Enabled(s, Record(o)) && s.ops[o].req.Delete?
    requires !Hazard(s, Record(o))
    ensures Agree(ApplyRecord(s, o))
  {
    var t := ApplyRecord(s, o);
    var task := s.ops[o];
    DeleteRecordTasks(s, o);
    assert TaskOk(task) && PlanCovered(task) && TaskAgrees(s, task);
    forall k ensures KeyAgrees(t, k) {
      assert KeyAgrees(s, k);
      DeleteHoldsPlan(task, k);
      if !Holds(task, k) {
        assert !(k in s.store && k in s.meta && Exposed(task, k));
        if k in s.meta && k !in s.store { ErasedByHolder(s, t, o, k); } else { KeyFrameAgrees(s, t, o, k); }
      }
    }
  }

  /** An object erased without a lock leaves a key that no holder accounts for. */
  lemma ErasedUnlocked(s: State, t: State, o: nat, k: Key)
    requires LockInv(s) && Agree(s) && o < |s.ops| == |t.ops| && t.ops == s.ops[o := t.ops[o]]
    requires !Excuses(s.ops[o], k) && !Excuses(t.ops[o], k)
    requires k in s.store && k !in t.store && t.meta == s.meta
    ensures !Agree(t)
  {
    assert KeyAgrees(s, k);
    if Excused(s, k) {
      var p :| 0 <= p < |s.ops| && Excuses(s.ops[p], k);
      assert Excuses(t.ops[p], k);
    }
    if Agree(t) {
      assert KeyAgrees(t, k);
      if Excused(t, k) {
        var p :| 0 <= p < |t.ops| && Excuses(t.ops[p], k);
        StoredHolderNeedsObject(s, t, p, o, k);
      }
    }
  }

  lemma WriteHazardBreaks(s: State, o: nat)
    requires Inv(s) && Agree(s) && Enabled(s, Write(o, true)) && Hazard(s, Write(o, true))
    ensures !Agree(ApplyWrite(s, o, true))
  {
    var k :| k in s.store && Exposed(s.ops[o], k);
    assert TaskOk(s.ops[o]);
    DeleteHoldsPlan(s.ops[o], k);
    ErasedUnlocked(s, ApplyWrite(s, o, true), o, k);
  }

  /** A holder past its storage call that still finds an object there wrote it, and needs it. */
  lemma StoredHolderNeedsObject(s: State, t: State, p: nat, o: nat, k: Key)
    requires LockInv(s) && Agree(s) && o < |s.ops| == |t.ops| && t.ops == s.ops[o := t.ops[o]]
    requires p < |s.ops| && p != o && Excuses(s.ops[p], k) && k in s.store
    ensures k !in t.store || k !in t.meta ==> !TaskAgrees(t, t.ops[p]) || (s.ops[p].req.Put? && k in t.store)
  {
    var task := s.ops[p];
    assert TaskOk(task) && TaskAgrees(s, task);
    if task.req.Delete? { DeleteHoldsPlan(task, k); } else { HoldsOwnKey(task); }
  }

  /** Metadata cleared without a lock, of an object that stays. */
  lemma ClearedUnlocked(s: State, t: State, o: nat, k: Key)
    requires LockInv(s) && Agree(s) && o < |s.ops| == |t.ops| && t.ops == s.ops[o := t.ops[o]]
    requires !Excuses(t.ops[o], k) && k in s.store && k in s.meta && k in t.store && k !in t.meta
    ensures !Agree(t)
  {
    if Agree(t) {
      assert KeyAgrees(t, k);
      var p :| 0 <= p < |t.ops| && Excuses(t.ops[p], k);
      assert TaskOk(s.ops[p]) && TaskAgrees(s, s.ops[p]);
      if !s.ops[p].req.Delete? { HoldsOwnKey(s.ops[p]); }
      StoredHolderNeedsObject(s, t, p, o, k);
    }
  }

  lemma RecordHazardBreaks(s: State, o: nat)
    requires Inv(s) && Agree(s) && Enabled(s, Record(o)) && Hazard(s, Record(o))
    ensures !Agree(ApplyRecord(s, o))
  {
    var k :| k in s.store && k in s.meta && Exposed(s.ops[o], k);
    ClearedUnlocked(s, ApplyRecord(s, o), o, k);
  }

  // ---- Exactly when agreement is kept ----------------------------------------------------

  lemma CheckAgrees(s: State, o: nat, ok: bool)
    requires LockInv(s) && Agree(s) && Enabled(s, Check(o, ok))
    ensures Agree(Apply(s, Check(o, ok)))
  {
    assert TaskAgrees(s, s.ops[o]);
    QuietAgree(s, Apply(s, Check(o, ok)), o);
  }

  lemma QuietEventAgrees(s: State, e: Event)
    requires LockInv(s) && Agree(s) && Enabled(s, e)
    requires e.Snapshot? || e.Enqueue? || e.Grant? || e.Probe? || e.Send? || e.Release? || e.Finish?
    ensures Agree(Apply(s, e))
  {
    assert TaskAgrees(s, s.ops[e.op]);
    QuietAgree(s, Apply(s, e), e.op);
  }

  lemma DeleteEventAgrees(s: State, e: Event)
    requires Inv(s) && Agree(s) && Enabled(s, e) && (e.Write? || e.Record?) && s.ops[e.op].req.Delete?
    ensures Agree(Apply(s, e)) <==> !Hazard(s, e)
  {
    match e
    case Write(o, ok) =>
      if !ok { QuietAgree(s, ApplyWrite(s, o, ok), o); }
      else if Hazard(s, e) { WriteHazardBreaks(s, o); }
      else { DeleteWriteAgrees(s, o); }
    case Record(o) =>
      if Hazard(s, e) { RecordHazardBreaks(s, o); } else { DeleteRecordAgrees(s, o); }
  }

  /** From an agreeing state a step leads to an agreeing state exactly when it is no hazard. */
  lemma StepAgrees(s: State, e: Event)
    requires Inv(s) && Agree(s) && Enabled(s, e)
    ensures Agree(Apply(s, e)) <==> !Hazard(s, e)
  {
    match e
    case Start(_) => QuietAgree(s, Apply(s, e), |s.ops|);
    case Check(o, ok) => CheckAgrees(s, o, ok);
    case Write(o, ok) => if s.ops[o].req.Delete? { DeleteEventAgrees(s, e); } else { WriteAgrees(s, o, ok); }
    case Record(o) => if s.ops[o].req.Delete? { DeleteEventAgrees(s, e); } else { RecordAgrees(s, o); }
    case _ => QuietEventAgrees(s, e);
  }

  ghost predicate AlwaysAgree(s: State, events: seq<Event>)
    requires IsRun(s, events)
    decreases |events|
  {
    Agree(s) && (events != [] ==> AlwaysAgree(Apply(s, events[0]), events[1..]))
  }

  ghost predicate HazardFree(s: State, events: seq<Event>)
    requires IsRun(s, events)
    decreases |events|
  {
    events != [] ==> !Hazard(s, events[0]) && HazardFree(Apply(s, events[0]), events[1..])
  }

  lemma {:induction false} RunAgrees(s: State, events: seq<Event>)
    requires Inv(s) && Agree(s) && IsRun(s, events)
    ensures AlwaysAgree(s, events) <==> HazardFree(s, events)
    ensures Inv(After(s, events))
    decreases |events|
  {
    if events != [] {
      InvStep(s, events[0]);
      StepAgrees(s, events[0]);
      if Hazard(s, events[0]) {
        RunKeepsInv(Apply(s, events[0]), events[1..]);
      } else {
        RunAgrees(Apply(s, events[0]), events[1..]);
      }
    }
  }

  lemma {:induction false} RunKeepsInv(s: State, events: seq<Event>)
    requires Inv(s) && IsRun(s, events)
    ensures Inv(After(s, events))
    decreases |events|
  {
    if events != [] {
      InvStep(s, events[0]);
      RunKeepsInv(Apply(s, events[0]), events[1..]);
    }
  }

  lemma LoadedAgrees(store: map<Key, Object>)
    requires WellStored(store)
    ensures Inv(Load(store)) && Agree(Load(store))
  {
    LoadedHistory(store);
    forall k ensures KeyAgrees(Load(store), k) { assert Consistent(Load(store), k); }
  }

  /** Over every run from a loaded store, metadata and store agree throughout exactly when no
      step of a prefix delete is a hazard; runs without prefix deletes always agree. */
  lemma AgreementExactly(store: map<Key, Object>, events: seq<Event>)
    requires WellStored(store) && IsRun(Load(store), events)
    ensures AlwaysAgree(Load(store), events) <==> HazardFree(Load(store), events)
  {
    LoadedAgrees(store);
    RunAgrees(Load(store), events);
  }

  // ---- When callers keep creations away from deletes -------------------------------------

  predicate DeleteInFlight(t: Task) { t.req.Delete? && (t.phase.Locking? || t.phase.Locked? || t.phase.Stored?) }

  /** No put is at work on a new key that a delete in flight covers but did not list. */
  predicate NoOverlap(s: State)
  {
    forall d, p :: 0 <= d < |s.ops| && 0 <= p < |s.ops| && DeleteInFlight(s.ops[d]) && s.ops[p].req.Put? &&
      Working(s.ops[p])
      ==> !Exposed(s.ops[d], s.ops[p].req.key)
  }

  ghost predicate NeverOverlap(s: State, events: seq<Event>)
    requires IsRun(s, events)
    decreases |events|
  {
    NoOverlap(s) && (events != [] ==> NeverOverlap(Apply(s, events[0]), events[1..]))
  }

  /** What a delete in flight covers without a lock is not stored. */
  ghost predicate Shielded(s: State)
  {
    forall d, k :: 0 <= d < |s.ops| && DeleteInFlight(s.ops[d]) && Exposed(s.ops[d], k) ==> k !in s.store
  }

  lemma ShieldedNoHazard(s: State, e: Event)
    requires LockInv(s) && Shielded(s) && Enabled(s, e)
    ensures !Hazard(s, e)
  {
    if e.Write? || e.Record? {
      assert TaskOk(s.ops[e.op]);
      assert s.ops[e.op].req.Delete? ==> DeleteInFlight(s.ops[e.op]);
    }
  }

  /** What a snapshot covers and does not list is not stored. */
  lemma UnlistedIsNotStored(s: State, o: nat, plan: seq<Key>, k: Key)
    requires LockInv(s) && Agree(s) && Enabled(s, Snapshot(o, plan)) && Matches(s.ops[o].req.filter, k) && k !in plan
    requires forall p :: 0 <= p < |s.ops| && s.ops[p].req.Put? && Working(s.ops[p]) ==> s.ops[p].req.key != k
    ensures k !in s.store
  {
    assert k !in s.meta;
    assert KeyAgrees(s, k);
    if Excused(s, k) {
      var p :| 0 <= p < |s.ops| && Excuses(s.ops[p], k);
      assert TaskOk(s.ops[p]) && TaskAgrees(s, s.ops[p]);
      if s.ops[p].req.Delete? { DeleteHoldsPlan(s.ops[p], k); } else { HoldsOwnKey(s.ops[p]); }
    }
  }

  lemma SnapshotShields(s: State, o: nat, plan: seq<Key>)
    requires LockInv(s) && Agree(s) && Shielded(s) && Enabled(s, Snapshot(o, plan))
    requires NoOverlap(Apply(s, Snapshot(o, plan)))
    ensures Shielded(Apply(s, Snapshot(o, plan)))
  {
    var t := Apply(s, Snapshot(o, plan));
    forall d, k | 0 <= d < |t.ops| && DeleteInFlight(t.ops[d]) && Exposed(t.ops[d], k)
      ensures k !in t.store
    {
      if d == o {
        forall p | 0 <= p < |s.ops| && s.ops[p].req.Put? && Working(s.ops[p]) ensures s.ops[p].req.key != k {
          assert t.ops[p] == s.ops[p];
        }
        UnlistedIsNotStored(s, o, plan, k);
      }
    }
  }

  lemma WriteShields(s: State, o: nat, ok: bool)
    requires LockInv(s) && NoOverlap(s) && Shielded(s) && Enabled(s, Write(o, ok))
    ensures Shielded(ApplyWrite(s, o, ok))
  {
    var t := ApplyWrite(s, o, ok);
    WriteMoves(s, o, ok);
    forall d, k | 0 <= d < |t.ops| && DeleteInFlight(t.ops[d]) && Exposed(t.ops[d], k)
      ensures k !in t.store
    {
      assert DeleteInFlight(s.ops[d]) && Exposed(s.ops[d], k);
      assert k !in s.store;
      WrittenKeys(s, o, ok, k);
    }
  }

  /** Only a put brings a key into the store. */
  lemma WrittenKeys(s: State, o: nat, ok: bool, k: Key)
    requires o < |s.ops|
    ensures k in ApplyWrite(s, o, ok).store ==> k in s.store || (s.ops[o].req.Put? && s.ops[o].req.key == k)
  {
  }

  lemma OtherShields(s: State, e: Event)
    requires Shielded(s) && Enabled(s, e) && !e.Snapshot? && !e.Write?
    ensures Shielded(Apply(s, e))
  {
    var t := Apply(s, e);
    RequestsKept(s, e);
    if e.Record? { RecordMoves(s, e.op); }
    forall d, k | 0 <= d < |t.ops| && DeleteInFlight(t.ops[d]) && Exposed(t.ops[d], k)
      ensures k !in t.store
    {
      assert d < |s.ops|;
      assert DeleteInFlight(s.ops[d]) && Exposed(s.ops[d], k);
    }
  }

  lemma StepShields(s: State, e: Event)
    requires LockInv(s) && Agree(s) && Shielded(s) && Enabled(s, e) && NoOverlap(s) && NoOverlap(Apply(s, e))
    ensures Shielded(Apply(s, e))
  {
    match e
    case Snapshot(o, plan) => SnapshotShields(s, o, plan);
    case Write(o, ok) => WriteShields(s, o, ok);
    case _ => OtherShields(s, e);
  }

  lemma {:induction false} OverlapFreeRunAgrees(s: State, events: seq<Event>)
    requires Inv(s) && Agree(s) && Shielded(s) && IsRun(s, events) && NeverOverlap(s, events)
    ensures HazardFree(s, events) && AlwaysAgree(s, events)
    decreases |events|
  {
    if events != [] {
      var e := events[0];
      ShieldedNoHazard(s, e);
      InvStep(s, e);
      StepAgrees(s, e);
      StepShields(s, e);
      OverlapFreeRunAgrees(Apply(s, e), events[1..]);
    }
  }

  /** If no put of a new covered key overlaps a delete, metadata and store agree throughout. */
  lemma AgreementWithoutOverlap(store: map<Key, Object>, events: seq<Event>)
    requires WellStored(store) && IsRun(Load(store), events) && NeverOverlap(Load(store), events)
    ensures AlwaysAgree(Load(store), events)
  {
    LoadedAgrees(store);
    OverlapFreeRunAgrees(Load(store), events);
  }

  // ---- What callers get ------------------------------------------------------------------

  /** A key whose lock is free is in metadata exactly when it is in the store, with its version,
      size, time and type. */
  lemma FreeKeyAgrees(s: State, k: Key)
    requires Agree(s) && forall o :: 0 <= o < |s.ops| ==> !Holds(s.ops[o], k)
    ensures Consistent(s, k)
  {
    assert KeyAgrees(s, k);
  }

  // ---- A delete that overlaps a creation -------------------------------------------------

  lemma {:induction false} OneMore(s: State, events: seq<Event>, e: Event)
    requires IsRun(s, events) && Enabled(After(s, events), e)
    ensures IsRun(s, events + [e]) && After(s, events + [e]) == Apply(After(s, events), e)
    decreases |events|
  {
    if events == [] {
      assert IsRun(Apply(s, e), []);
      assert ([] + [e])[1..] == [];
    } else {
      OneMore(Apply(s, events[0]), events[1..], e);
      assert (events + [e])[1..] == events[1..] + [e];
    }
  }

  lemma LockTaken(put: Request) returns (events: seq<Event>)
    requires put.Put? && Admissible(put)
    ensures IsRun(Load(map[]), events)
    ensures After(Load(map[]), events) ==
      Load(map[]).(ops := [Task(put, [put.key], 0, 1, Locked)], queues := map[put.key := [0]])
  {
    var s0, k := Load(map[]), put.key;
    var s1 := s0.(ops := [Task(put, [k], 0, 0, Locking(false))]);
    OneMore(s0, [], Start(put));
    assert After(s0, [Start(put)]) == s1;
    OneMore(s0, [Start(put)], Enqueue(0));
    var s2 := s1.(ops := [Task(put, [k], 0, 0, Locking(true))], queues := map[k := [0]]);
    assert Queue(s1, k) + [0] == [0];
    assert s1.queues[k := [0]] == map[k := [0]];
    assert Apply(s1, Enqueue(0)) == s2;
    OneMore(s0, [Start(put), Enqueue(0)], Grant(0));
    events := [Start(put), Enqueue(0), Grant(0)];
  }

  /** The put up to the point where its object is stored and no metadata shows it yet. */
  lemma CreationInFlight(put: Request) returns (events: seq<Event>)
    requires put.Put? && Admissible(put)
    ensures IsRun(Load(map[]), events)
    ensures After(Load(map[]), events) == InFlight(put)
  {
    var s0 := Load(map[]);
    events := LockTaken(put);
    OneMore(s0, events, Probe(0));
    events := events + [Probe(0)];
    OneMore(s0, events, Check(0, true));
    events := events + [Check(0, true)];
    OneMore(s0, events, Write(0, true));
    events := events + [Write(0, true)];
  }

  function InFlight(put: Request): State
    requires put.Put?
  {
    State([Task(put, [put.key], 0, 1, Stored(None))], map[put.key := [0]], map[],
          map[put.key := Object(put.dataType, [put.part])], map[put.key := 1], map[put.key := 0], map[put.key := []])
  }

  /** A delete that lists nothing, because no metadata shows the object, and erases it. */
  function Overtaken(put: Request, filter: ObjectKey): State
    requires put.Put?
  {
    InFlight(put).(ops := [InFlight(put).ops[0], Task(Delete(filter), [], 0, 0, Finished(Deleted(true)))],
                   store := map[])
  }

  lemma DeleteOvertakes(s0: State, before: seq<Event>, put: Request, filter: ObjectKey) returns (events: seq<Event>)
    requires IsRun(s0, before) && put.Put? && After(s0, before) == InFlight(put) && Matches(filter, put.key)
    ensures IsRun(s0, events) && After(s0, events) == Overtaken(put, filter)
  {
    var d := Task(Delete(filter), [], 0, 0, Fresh);
    var s := InFlight(put);
    OneMore(s0, before, Start(Delete(filter)));
    events := before + [Start(Delete(filter))];
    assert After(s0, events) == s.(ops := [s.ops[0], d]);
    OneMore(s0, events, Snapshot(1, []));
    events := events + [Snapshot(1, [])];
    assert After(s0, events) == s.(ops := [s.ops[0], d.(phase := Locked)]);
    events := DeleteErases(s0, events, put, filter);
  }

  lemma DeleteErases(s0: State, before: seq<Event>, put: Request, filter: ObjectKey) returns (events: seq<Event>)
    requires IsRun(s0, before) && put.Put? && Matches(filter, put.key)
    requires var s := InFlight(put); After(s0, before) == s.(ops := [s.ops[0], Task(Delete(filter), [], 0, 0, Locked)])
    ensures IsRun(s0, events) && After(s0, events) == Overtaken(put, filter)
  {
    var d := Task(Delete(filter), [], 0, 0, Locked);
    var s := InFlight(put);
    OneMore(s0, before, Write(1, true));
    events := before + [Write(1, true)];
    assert Erase(s.store, filter) == map[];
    assert After(s0, events) == s.(ops := [s.ops[0], d.(phase := Stored(None))], store := map[]);
    OneMore(s0, events, Record(1));
    events := events + [Record(1)];
    assert Erase(s.meta, filter) == map[];
    OneMore(s0, events, Finish(1));
    events := events + [Finish(1)];
  }

  /** For every put and every filter that covers its key there is a run that ends with both
      finished and metadata for an object that is not stored. */
  lemma OverlapBreaksAgreement(put: Request, filter: ObjectKey) returns (events: seq<Event>)
    requires put.Put? && Admissible(put) && Matches(filter, put.key)
    ensures IsRun(Load(map[]), events)
    ensures var s := After(Load(map[]), events); AllFinished(s) && put.key in s.meta && put.key !in s.store
  {
    var s0 := Load(map[]);
    var before := CreationInFlight(put);
    events := DeleteOvertakes(s0, before, put, filter);
    var s := Overtaken(put, filter);
    OneMore(s0, events, Record(0));
    events := events + [Record(0)];
    OneMore(s0, events, Release(0));
    events := events + [Release(0)];
    OneMore(s0, events, Finish(0));
    events := events + [Finish(0)];
  }
}
