/** What was acknowledged is what is stored: no put or patch that was answered is lost, however
    the operations interleave and whatever is deleted meanwhile. */
module CacheHistory {
  import opened CacheProtocol
  import opened CacheLocks

  // ---- History: what was acknowledged is what is stored ----------------------------------

  predicate Writes(req: Request, k: Key) { (req.Put? || req.Patch?) && req.key == k }

  /** A write of `k` that is in the store and not yet answered. */
  predicate Pending(t: Task, k: Key) { t.phase.Stored? && Writes(t.req, k) }

  predicate Answered(t: Task, r: Response)
  {
    (t.phase.Leaving? || t.phase.Finished?) && t.phase.answer == r
  }

  /** The i-th acknowledged write of `k` was answered with the next version number, and its part
      is the one stored at that place. */
  predicate AckedAt(s: State, k: Key, i: nat)
    requires i < |Acks(s, k)|
  {
    var o := Acks(s, k)[i];
    && o < |s.ops|
    && Writes(s.ops[o].req, k)
    && Answered(s.ops[o], Version(Base(s, k) + i + 1))
    && (k in s.store ==> Base(s, k) + i < |s.store[k].parts| && s.store[k].parts[Base(s, k) + i] == s.ops[o].req.part)
  }

  ghost predicate KeyHistory(s: State, k: Key)
  {
    && (forall i :: 0 <= i < |Acks(s, k)| ==> AckedAt(s, k, i))
    && (k in s.store ==>
        && s.store[k].parts != []
        && ((forall o :: 0 <= o < |s.ops| ==> !Pending(s.ops[o], k)) ==>
            |s.store[k].parts| == Base(s, k) + |Acks(s, k)|))
  }

  /** What an operation between its check and its answer knows about its key. */
  predicate TaskHistory(s: State, t: Task)
  {
    match t.req
    case Put(key, dataType, part) =>
      && (t.phase.Checked? ==> key !in s.store)
      && (t.phase.Stored? ==>
          Acks(s, key) == [] && Base(s, key) == 0 && (key in s.store ==> s.store[key] == Object(dataType, [part])))
    case Patch(key, _, part) =>
      ((t.phase.Checked? || t.phase.Stored?) && t.phase.seen.Some? ==>
        var seen := t.phase.seen.value;
        && seen.parts != []
        && Base(s, key) + |Acks(s, key)| == |seen.parts|
        && (key in s.store ==> s.store[key] == if t.phase.Checked? then seen else Extend(seen, part)))
    case Get(key, version) =>
      (t.phase.Sending? ==>
        && version + |t.phase.sent| <= |t.phase.found.parts|
        && t.phase.sent == t.phase.found.parts[version..version + |t.phase.sent|]
        && (key in s.store ==> s.store[key] == t.phase.found))
    case _ => true
  }

  ghost predicate HistoryInv(s: State)
  {
    && LockInv(s)
    && (forall k :: KeyHistory(s, k))
    && (forall o :: 0 <= o < |s.ops| ==> TaskHistory(s, s.ops[o]))
  }

  predicate Working(t: Task) { t.phase.Probed? || t.phase.Checked? || t.phase.Stored? || t.phase.Sending? }

  /** Two operations at work on one key are one operation, unless both read. */
  lemma Alone(s: State, a: nat, b: nat)
    requires LockInv(s) && a < |s.ops| && b < |s.ops|
    requires !s.ops[a].req.Delete? && !s.ops[b].req.Delete? && !s.ops[a].req.Get?
    requires Working(s.ops[a]) && Working(s.ops[b]) && s.ops[a].req.key == s.ops[b].req.key
    ensures a == b
  {
    var k := s.ops[a].req.key;
    assert TaskOk(s.ops[a]) && TaskOk(s.ops[b]);
    assert s.ops[a].plan[0..1] == [k] && s.ops[b].plan[0..1] == [k];
    Exclusive(s, k, a, b);
  }

  /** Nothing about `k` changed, except that its object may be gone. */
  predicate Kept(s: State, t: State, k: Key)
  {
    && Acks(t, k) == Acks(s, k) && Base(t, k) == Base(s, k)
    && (k in t.store ==> k in s.store && t.store[k] == s.store[k])
  }

  /** `t` is `s` with operation `o` moved on or added; answers once given stay. */
  predicate Advanced(s: State, t: State, o: nat)
  {
    && o < |t.ops| && (|t.ops| == |s.ops| || (|t.ops| == |s.ops| + 1 && o == |s.ops|))
    && (forall p :: 0 <= p < |s.ops| && p != o ==> t.ops[p] == s.ops[p])
    && (o < |s.ops| ==> t.ops[o].req == s.ops[o].req)
    && (o < |s.ops| && (s.ops[o].phase.Leaving? || s.ops[o].phase.Finished?) ==>
        Answered(t.ops[o], s.ops[o].phase.answer))
  }

  lemma KeyFrame(s: State, t: State, o: nat, k: Key)
    requires KeyHistory(s, k) && Advanced(s, t, o) && Kept(s, t, k)
    requires o < |s.ops| && Pending(s.ops[o], k) ==> Pending(t.ops[o], k)
    ensures KeyHistory(t, k)
  {
    forall i | 0 <= i < |Acks(t, k)| ensures AckedAt(t, k, i) { assert AckedAt(s, k, i); }
    if forall p :: 0 <= p < |t.ops| ==> !Pending(t.ops[p], k) {
      forall p | 0 <= p < |s.ops| ensures !Pending(s.ops[p], k) { assert !Pending(t.ops[p], k); }
    }
  }

  lemma TaskFrame(s: State, t: State, task: Task)
    requires TaskHistory(s, task)
    requires !task.req.Delete? && Working(task) ==> Kept(s, t, task.req.key)
    ensures TaskHistory(t, task)
  {
  }

  /** The other operations after a step of `o` on `key`. */
  lemma OthersKeep(s: State, t: State, o: nat, key: Key)
    requires HistoryInv(s) && Advanced(s, t, o) && o < |s.ops| && TaskHistory(t, t.ops[o])
    requires Writes(s.ops[o].req, key) && Working(s.ops[o])
    requires forall k :: k != key ==> Kept(s, t, k)
    ensures forall p :: 0 <= p < |t.ops| ==> TaskHistory(t, t.ops[p])
  {
    forall p | 0 <= p < |t.ops| ensures TaskHistory(t, t.ops[p]) {
      if p != o {
        assert p < |s.ops| && t.ops[p] == s.ops[p];
        var task := s.ops[p];
        assert TaskHistory(s, task);
        if !task.req.Delete? && Working(task) && task.req.key == key { Alone(s, o, p); }
        TaskFrame(s, t, task);
      }
    }
  }

  /** Steps that do not cross a write's storage call or answer; objects may be erased. */
  lemma FrameHistory(s: State, t: State, o: nat)
    requires HistoryInv(s) && LockInv(t) && Advanced(s, t, o)
    requires forall k :: Kept(s, t, k)
    requires o < |s.ops| ==> forall k :: !Pending(s.ops[o], k)
    requires TaskHistory(t, t.ops[o])
    ensures HistoryInv(t)
  {
    forall k ensures KeyHistory(t, k) {
      assert KeyHistory(s, k);
      KeyFrame(s, t, o, k);
    }
    forall p | 0 <= p < |t.ops| ensures TaskHistory(t, t.ops[p]) {
      if p != o {
        var task := t.ops[p];
        assert p < |s.ops| && task == s.ops[p];
        TaskFrame(s, t, task);
      }
    }
  }

  lemma PutWriteHistory(s: State, o: nat)
    requires HistoryInv(s) && Enabled(s, Write(o, true)) && s.ops[o].req.Put?
    ensures HistoryInv(ApplyWrite(s, o, true))
  {
    var t := ApplyWrite(s, o, true);
    var key := s.ops[o].req.key;
    LockStep(s, Write(o, true));
    assert Advanced(s, t, o);
    forall k ensures KeyHistory(t, k) {
      assert KeyHistory(s, k);
      if k == key { assert Pending(t.ops[o], k); } else { KeyFrame(s, t, o, k); }
    }
    OthersKeep(s, t, o, key);
  }

  lemma PatchWriteHistory(s: State, o: nat)
    requires HistoryInv(s) && Enabled(s, Write(o, true)) && s.ops[o].req.Patch? && s.ops[o].req.key in s.store
    ensures HistoryInv(ApplyWrite(s, o, true))
  {
    var t := ApplyWrite(s, o, true);
    var key := s.ops[o].req.key;
    LockStep(s, Write(o, true));
    assert Advanced(s, t, o);
    forall k ensures KeyHistory(t, k) {
      assert KeyHistory(s, k);
      if k == key {
        assert Pending(t.ops[o], k);
        forall i | 0 <= i < |Acks(t, k)| ensures AckedAt(t, k, i) { assert AckedAt(s, k, i); }
      } else {
        KeyFrame(s, t, o, k);
      }
    }
    assert TaskOk(s.ops[o]) && TaskHistory(s, s.ops[o]);
    OthersKeep(s, t, o, key);
  }

  /** One more acknowledged write, answered with the next version, of the part stored there. */
  lemma AckAppended(s: State, t: State, k: Key, o: nat)
    requires KeyHistory(s, k) && Advanced(s, t, o) && o < |s.ops|
    requires Acks(t, k) == Acks(s, k) + [o] && Base(t, k) == Base(s, k) && t.store == s.store
    requires Writes(t.ops[o].req, k) && Answered(t.ops[o], Version(Base(s, k) + |Acks(s, k)| + 1))
    requires k in s.store ==>
      && |s.store[k].parts| == Base(s, k) + |Acks(s, k)| + 1
      && s.store[k].parts[Base(s, k) + |Acks(s, k)|] == t.ops[o].req.part
    ensures KeyHistory(t, k)
  {
    forall i | 0 <= i < |Acks(t, k)| ensures AckedAt(t, k, i) {
      if i < |Acks(s, k)| { assert AckedAt(s, k, i); }
    }
  }

  /** The step that answers a put or a patch: its version is the next one. */
  lemma AnswerKeyHistory(s: State, o: nat)
    requires HistoryInv(s) && Enabled(s, Record(o)) && (s.ops[o].req.Put? || s.ops[o].req.Patch?)
    ensures KeyHistory(ApplyRecord(s, o), s.ops[o].req.key)
  {
    var t := ApplyRecord(s, o);
    var k := s.ops[o].req.key;
    assert TaskOk(s.ops[o]) && TaskHistory(s, s.ops[o]);
    assert KeyHistory(s, k);
    assert Advanced(s, t, o);
    AckAppended(s, t, k, o);
  }

  lemma AnswerHistory(s: State, o: nat)
    requires HistoryInv(s) && Enabled(s, Record(o)) && (s.ops[o].req.Put? || s.ops[o].req.Patch?)
    ensures HistoryInv(ApplyRecord(s, o))
  {
    var t := ApplyRecord(s, o);
    var key := s.ops[o].req.key;
    LockStep(s, Record(o));
    AnswerKeyHistory(s, o);
    assert Advanced(s, t, o);
    forall k ensures KeyHistory(t, k) {
      assert KeyHistory(s, k);
      if k != key { KeyFrame(s, t, o, k); }
    }
    OthersKeep(s, t, o, key);
  }

  lemma ErasedKept(s: State, o: nat, ok: bool, k: Key)
    requires Enabled(s, Write(o, ok))
    requires !(ok && s.ops[o].req.Put?) && !(ok && s.ops[o].req.Patch? && s.ops[o].req.key in s.store)
    ensures Kept(s, ApplyWrite(s, o, ok), k)
  {
  }

  lemma MovedAdvanced(s: State, t: State, o: nat)
    requires Moved(s, t, o) && !s.ops[o].phase.Leaving? && !s.ops[o].phase.Finished?
    ensures Advanced(s, t, o)
  {
  }

  /** A storage call that creates and appends nothing. */
  lemma EraseHistory(s: State, o: nat, ok: bool)
    requires HistoryInv(s) && Enabled(s, Write(o, ok))
    requires !(ok && s.ops[o].req.Put?) && !(ok && s.ops[o].req.Patch? && s.ops[o].req.key in s.store)
    ensures HistoryInv(ApplyWrite(s, o, ok))
  {
    var t := ApplyWrite(s, o, ok);
    LockStep(s, Write(o, ok));
    WriteMoves(s, o, ok);
    MovedAdvanced(s, t, o);
    assert TaskHistory(s, s.ops[o]);
    forall k ensures Kept(s, t, k) { ErasedKept(s, o, ok, k); }
    FrameHistory(s, t, o);
  }

  lemma WriteHistory(s: State, o: nat, ok: bool)
    requires HistoryInv(s) && Enabled(s, Write(o, ok))
    ensures HistoryInv(ApplyWrite(s, o, ok))
  {
    if ok && s.ops[o].req.Put? {
      PutWriteHistory(s, o);
    } else if ok && s.ops[o].req.Patch? && s.ops[o].req.key in s.store {
      PatchWriteHistory(s, o);
    } else {
      EraseHistory(s, o, ok);
    }
  }

  lemma RecordHistory(s: State, o: nat)
    requires HistoryInv(s) && Enabled(s, Record(o))
    ensures HistoryInv(ApplyRecord(s, o))
  {
    if s.ops[o].req.Put? || s.ops[o].req.Patch? {
      AnswerHistory(s, o);
    } else {
      LockStep(s, Record(o));
      FrameHistory(s, ApplyRecord(s, o), o);
    }
  }

  lemma CheckHistory(s: State, o: nat, ok: bool)
    requires HistoryInv(s) && Enabled(s, Check(o, ok))
    ensures HistoryInv(Apply(s, Check(o, ok)))
  {
    LockStep(s, Check(o, ok));
    if s.ops[o].req.Patch? { assert KeyHistory(s, s.ops[o].req.key); }
    if s.ops[o].req.Patch? && s.ops[o].req.key in s.store {
      forall p | 0 <= p < |s.ops| ensures !Pending(s.ops[p], s.ops[o].req.key) {
        HolderAlone(s, o, p);
      }
    }
    FrameHistory(s, Apply(s, Check(o, ok)), o);
  }

  /** An operation that just got its lock finds no unanswered write of its key. */
  lemma HolderAlone(s: State, a: nat, b: nat)
    requires LockInv(s) && a < |s.ops| && b < |s.ops|
    requires s.ops[a].phase.Locked? && !s.ops[a].req.Delete?
    ensures !Pending(s.ops[b], s.ops[a].req.key)
  {
    var k := s.ops[a].req.key;
    assert TaskOk(s.ops[a]) && TaskOk(s.ops[b]);
    if Pending(s.ops[b], k) {
      assert s.ops[a].plan[0..1] == [k] && s.ops[b].plan[0..1] == [k];
      Exclusive(s, k, b, a);
    }
  }

  lemma LockHistory(s: State, e: Event)
    requires HistoryInv(s) && Enabled(s, e)
    requires e.Snapshot? || e.Enqueue? || e.Grant? || e.Release?
    ensures HistoryInv(Apply(s, e))
  {
    LockStep(s, e);
    assert TaskOk(s.ops[e.op]) && TaskHistory(s, s.ops[e.op]);
    FrameHistory(s, Apply(s, e), e.op);
  }

  /** The part just read is the next one of the object found at the start. */
  lemma SendHistory(s: State, o: nat, ok: bool)
    requires HistoryInv(s) && Enabled(s, Send(o, ok))
    ensures TaskHistory(Apply(s, Send(o, ok)), Apply(s, Send(o, ok)).ops[o])
  {
    assert TaskOk(s.ops[o]) && TaskHistory(s, s.ops[o]);
  }

  lemma PointHistory(s: State, e: Event)
    requires HistoryInv(s) && Enabled(s, e) && (e.Probe? || e.Send? || e.Finish?)
    ensures HistoryInv(Apply(s, e))
  {
    LockStep(s, e);
    if e.Send? { SendHistory(s, e.op, e.ok); }
    FrameHistory(s, Apply(s, e), e.op);
  }

  /** Every step keeps the history invariant, whatever deletes run. */
  lemma HistoryStep(s: State, e: Event)
    requires HistoryInv(s) && Enabled(s, e)
    ensures HistoryInv(Apply(s, e))
  {
    match e
    case Start(_) =>
      LockStep(s, e);
      FrameHistory(s, Apply(s, e), |s.ops|);
    case Write(o, ok) => WriteHistory(s, o, ok);
    case Record(o) => RecordHistory(s, o);
    case Check(o, ok) => CheckHistory(s, o, ok);
    case Probe(_) => PointHistory(s, e);
    case Send(_, _) => PointHistory(s, e);
    case Finish(_) => PointHistory(s, e);
    case _ => LockHistory(s, e);
  }

  lemma LoadedHistory(store: map<Key, Object>)
    requires WellStored(store)
    ensures HistoryInv(Load(store))
  {
    LoadedLocks(store);
    forall k ensures KeyHistory(Load(store), k) { }
  }

  lemma {:induction false} RunKeepsHistory(s: State, events: seq<Event>)
    requires HistoryInv(s) && IsRun(s, events)
    ensures HistoryInv(After(s, events))
    decreases |events|
  {
    if events != [] {
      HistoryStep(s, events[0]);
      RunKeepsHistory(Apply(s, events[0]), events[1..]);
    }
  }

  /** An object that was not created again has only grown, by appending. */
  predicate Grew(s: State, t: State, k: Key)
  {
    && Gen(s, k) <= Gen(t, k)
    && (Gen(s, k) == Gen(t, k) && k in t.store ==>
        k in s.store && t.store[k].dataType == s.store[k].dataType && s.store[k].parts <= t.store[k].parts)
  }

  lemma WrittenGrows(s: State, task: Task, k: Key)
    requires !task.req.Put? && k in WrittenStore(s, task)
    ensures k in s.store && WrittenStore(s, task)[k].dataType == s.store[k].dataType
    ensures s.store[k].parts <= WrittenStore(s, task)[k].parts
  {
  }

  lemma WriteGrows(s: State, o: nat, ok: bool, k: Key)
    requires o < |s.ops|
    ensures Grew(s, ApplyWrite(s, o, ok), k)
  {
    if !s.ops[o].req.Put? && k in WrittenStore(s, s.ops[o]) { WrittenGrows(s, s.ops[o], k); }
  }

  lemma StoreKept(s: State, e: Event)
    requires Enabled(s, e) && !e.Write?
    ensures Apply(s, e).store == s.store && Apply(s, e).gen == s.gen
  {
  }

  lemma StepGrows(s: State, e: Event, k: Key)
    requires Enabled(s, e)
    ensures Grew(s, Apply(s, e), k)
  {
    if e.Write? { WriteGrows(s, e.op, e.ok, k); } else { StoreKept(s, e); }
  }

  /** Over every run: between a creation and the next one, the parts only grow by appending. */
  lemma {:induction false} RunGrows(s: State, events: seq<Event>, k: Key)
    requires IsRun(s, events)
    ensures Grew(s, After(s, events), k)
    decreases |events|
  {
    if events != [] {
      StepGrows(s, events[0], k);
      RunGrows(Apply(s, events[0]), events[1..], k);
    }
  }

  /** No lost patch. After every run from a loaded store: the writes acknowledged for a key since
      it was loaded or created were answered with consecutive versions, the part of each is stored
      at its version's place, and once no write of the key is in flight these are all its parts. */
  lemma NoLostWrite(store: map<Key, Object>, events: seq<Event>, k: Key)
    requires WellStored(store) && IsRun(Load(store), events)
    ensures var s := After(Load(store), events);
      && (forall i :: 0 <= i < |Acks(s, k)| ==> AckedAt(s, k, i))
      && (k in s.store && (forall o :: 0 <= o < |s.ops| ==> !Pending(s.ops[o], k)) ==>
          |s.store[k].parts| == Base(s, k) + |Acks(s, k)|)
      && (k in s.store && Gen(s, k) == 0 ==> k in store && store[k].parts <= s.store[k].parts)
  {
    LoadedHistory(store);
    RunKeepsHistory(Load(store), events);
    RunGrows(Load(store), events, k);
    assert KeyHistory(After(Load(store), events), k);
  }

  // ---- Answers ---------------------------------------------------------------------------

  lemma OthersUntouched(s: State, e: Event, p: nat)
    requires Enabled(s, e) && p < |s.ops| && (e.Start? || e.op != p)
    ensures p < |Apply(s, e).ops| && Apply(s, e).ops[p] == s.ops[p]
  {
    match e
    case Write(o, ok) => WriteMoves(s, o, ok);
    case Record(o) => RecordMoves(s, o);
    case _ =>
  }

  predicate HasVersion(t: Task) { (t.phase.Leaving? || t.phase.Finished?) && t.phase.answer.Version? }

  /** Operation `o` writes `k` and was answered with a version. */
  predicate Wrote(s: State, k: Key, o: nat) { o < |s.ops| && Writes(s.ops[o].req, k) && HasVersion(s.ops[o]) }

  /** While the key is not created again, the acknowledged writes are kept, and whoever was answered
      since is among them. */
  ghost predicate Acknowledged(s: State, t: State, k: Key)
  {
    Gen(t, k) == Gen(s, k) ==>
      Acks(s, k) <= Acks(t, k) && forall o :: Wrote(t, k, o) && !Wrote(s, k, o) ==> o in Acks(t, k)
  }

  lemma WriteAcksKept(s: State, o: nat, ok: bool, k: Key)
    requires o < |s.ops| && Gen(ApplyWrite(s, o, ok), k) == Gen(s, k)
    ensures Acks(ApplyWrite(s, o, ok), k) == Acks(s, k)
  {
  }

  lemma AcksKept(s: State, e: Event, k: Key)
    requires Enabled(s, e) && !(e.Record? && Writes(s.ops[e.op].req, k)) && Gen(Apply(s, e), k) == Gen(s, k)
    ensures Acks(Apply(s, e), k) == Acks(s, k)
  {
    match e
    case Write(o, ok) => WriteAcksKept(s, o, ok, k);
    case _ =>
  }

  lemma WriteGivesNoVersion(s: State, o: nat, ok: bool)
    requires Enabled(s, Write(o, ok))
    ensures !HasVersion(ApplyWrite(s, o, ok).ops[o])
  {
    WriteMoves(s, o, ok);
  }

  /** A step of the operation itself, other than its metadata update, gives it no version. */
  lemma NoVersionYet(s: State, e: Event)
    requires Enabled(s, e) && !e.Start? && !e.Record? && TaskOk(s.ops[e.op])
    ensures e.op < |Apply(s, e).ops| && (HasVersion(Apply(s, e).ops[e.op]) ==> HasVersion(s.ops[e.op]))
    ensures Apply(s, e).ops[e.op].req == s.ops[e.op].req
  {
    match e
    case Write(o, ok) =>
      WriteMoves(s, o, ok);
      WriteGivesNoVersion(s, o, ok);
    case _ =>
  }

  /** Only the metadata update of a write answers with a version. */
  lemma VersionFromRecord(s: State, e: Event, k: Key, o: nat)
    requires Enabled(s, e) && LockInv(s) && Wrote(Apply(s, e), k, o) && !Wrote(s, k, o)
    ensures e == Record(o) && Writes(s.ops[o].req, k)
  {
    if o < |s.ops| {
      if e.Start? || e.op != o { OthersUntouched(s, e, o); }
      else if e.Record? { RecordMoves(s, o); }
      else { NoVersionYet(s, e); }
    }
  }

  lemma AckStep(s: State, e: Event, k: Key)
    requires Enabled(s, e) && LockInv(s)
    ensures Acknowledged(s, Apply(s, e), k)
  {
    var t := Apply(s, e);
    if Gen(t, k) == Gen(s, k) {
      if !(e.Record? && Writes(s.ops[e.op].req, k)) { AcksKept(s, e, k); }
      forall o | Wrote(t, k, o) && !Wrote(s, k, o) ensures o in Acks(t, k) { VersionFromRecord(s, e, k, o); }
    }
  }

  lemma {:induction false} RunAcknowledges(s: State, events: seq<Event>, k: Key)
    requires LockInv(s) && IsRun(s, events)
    ensures Acknowledged(s, After(s, events), k)
    decreases |events|
  {
    if events != [] {
      var mid, t := Apply(s, events[0]), After(s, events);
      LockStep(s, events[0]);
      AckStep(s, events[0], k);
      RunAcknowledges(mid, events[1..], k);
      StepGrows(s, events[0], k);
      RunGrows(mid, events[1..], k);
    }
  }

  /** No repeat. Two writes of a key answered with the same version in one creation of it are one
      operation: every write answered since any earlier point of that creation is an acknowledged
      one, and these have consecutive versions. */
  lemma VersionsNeverRepeat(store: map<Key, Object>, before: seq<Event>, after: seq<Event>, k: Key, a: nat, b: nat)
    requires WellStored(store) && IsRun(Load(store), before) && IsRun(After(Load(store), before), after)
    requires var s, t := After(Load(store), before), After(After(Load(store), before), after);
      Gen(t, k) == Gen(s, k) && Wrote(t, k, a) && Wrote(t, k, b) && !Wrote(s, k, a) && !Wrote(s, k, b)
    ensures var t := After(After(Load(store), before), after);
      a in Acks(t, k) && b in Acks(t, k) && (t.ops[a].phase.answer == t.ops[b].phase.answer ==> a == b)
  {
    var s := After(Load(store), before);
    LoadedHistory(store);
    RunKeepsHistory(Load(store), before);
    RunKeepsHistory(s, after);
    RunAcknowledges(s, after, k);
    var t := After(s, after);
    assert KeyHistory(t, k);
    var i :| 0 <= i < |Acks(t, k)| && Acks(t, k)[i] == a;
    var j :| 0 <= j < |Acks(t, k)| && Acks(t, k)[j] == b;
    assert AckedAt(t, k, i) && AckedAt(t, k, j);
  }

  // ---- Readers ---------------------------------------------------------------------------

  /** A reader that began to send `found` goes on with it, fails, or has sent all of it after the
      requested version. */
  predicate Sends(t: Task, found: Object)
  {
    && t.req.Get? && t.req.version <= |found.parts|
    && (|| (t.phase.Sending? && t.phase.found == found)
        || Answered(t, Failed)
        || Answered(t, Content(|found.parts|, found.dataType, found.parts[t.req.version..])))
  }

  lemma SendStep(s: State, o: nat, ok: bool)
    requires HistoryInv(s) && Enabled(s, Send(o, ok))
    ensures Sends(Apply(s, Send(o, ok)).ops[o], s.ops[o].phase.found)
  {
    var task := s.ops[o];
    var found, sent, version := task.phase.found, task.phase.sent, task.req.version;
    assert TaskOk(task) && TaskHistory(s, task);
    if ok && task.req.key in s.store {
      var more := sent + [found.parts[version + |sent|]];
      assert more == found.parts[version..version + |more|];
      assert version + |more| == |found.parts| ==> more == found.parts[version..];
    }
  }

  lemma SendsStep(s: State, e: Event, o: nat, found: Object)
    requires HistoryInv(s) && Enabled(s, e) && o < |s.ops| && Sends(s.ops[o], found)
    ensures o < |Apply(s, e).ops| && Sends(Apply(s, e).ops[o], found)
  {
    if e.Start? || e.op != o { OthersUntouched(s, e, o); } else if e.Send? { SendStep(s, o, e.ok); }
  }

  lemma {:induction false} RunSends(s: State, events: seq<Event>, o: nat, found: Object)
    requires HistoryInv(s) && IsRun(s, events) && o < |s.ops| && Sends(s.ops[o], found)
    ensures o < |After(s, events).ops| && Sends(After(s, events).ops[o], found)
    decreases |events|
  {
    if events != [] {
      SendsStep(s, events[0], o, found);
      HistoryStep(s, events[0]);
      RunSends(Apply(s, events[0]), events[1..], o, found);
    }
  }

  /** One version. In every run, a reader whose look at the store finds an object either fails later
      or sends exactly that object's parts after the requested version, though it reads them one by
      one while other operations step. */
  lemma GetSendsOneVersion(store: map<Key, Object>, before: seq<Event>, o: nat, after: seq<Event>)
    requires WellStored(store) && IsRun(Load(store), before)
    requires var s := After(Load(store), before);
      && Enabled(s, Check(o, true)) && s.ops[o].req.Get? && IsRun(Apply(s, Check(o, true)), after)
      && s.ops[o].req.key in s.store && s.ops[o].req.version <= |s.store[s.ops[o].req.key].parts|
    ensures var s := After(Load(store), before);
      var t := After(Apply(s, Check(o, true)), after);
      o < |t.ops| && Sends(t.ops[o], s.store[s.ops[o].req.key])
  {
    var s := After(Load(store), before);
    LoadedHistory(store);
    RunKeepsHistory(Load(store), before);
    HistoryStep(s, Check(o, true));
    var found := s.store[s.ops[o].req.key];
    assert s.ops[o].req.version == |found.parts| ==> found.parts[s.ops[o].req.version..] == [];
    RunSends(Apply(s, Check(o, true)), after, o, found);
  }
}
