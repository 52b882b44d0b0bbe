/** What operations are answered. An operation that has its lock, whose storage calls succeed and whose
    key no delete reaches without a lock, is answered as if nobody else were there; and in every run an
    answer means what happened before it. */
module CacheAnswers {
  import opened Wrappers
  import opened ObjectKeys
  import opened CacheProtocol
  import opened CacheLocks
  import opened CacheHistory
  import opened CacheAgreement
  import opened CacheMetadata

  // ---- The answer of one operation on its own --------------------------------------------

  predicate Unmatched(s: State, k: Key, version: nat)
  {
    k in s.meta && (version == 0 || s.meta[k].version != version)
  }

  /** The answer of a request on one key, from what metadata and store hold when it has its lock. */
  function Expected(s: State, req: Request): Response
    requires !req.Delete?
  {
    match req
    case Put(k, _, _) => if k in s.meta || k in s.store then Failed else Version(1)
    case Patch(k, dataType, _) =>
      if k in s.store && s.store[k].dataType == dataType then Version(|s.store[k].parts| + 1) else Failed
    case CompareAndDelete(k, version, creationTime) =>
      Deleted(k in s.meta && s.meta[k].version == version && s.meta[k].creationTime == creationTime)
    case Get(k, version) =>
      if k !in s.meta then Failed
      else if !Unmatched(s, k, version) then UpToDate(version)
      else if k !in s.store || version > |s.store[k].parts| then Failed
      else Content(|s.store[k].parts|, s.store[k].dataType, s.store[k].parts[version..])
  }

  /** An operation that had its lock in `s` has come this far in `u`. */
  predicate OnCourse(s: State, u: State, task: Task)
    requires !task.req.Delete?
  {
    var k := task.req.key;
    match task.phase
    case Locked => SameAt(s, u, k)
    case Probed =>
      && SameAt(s, u, k)
      && (task.req.Put? ==> k !in s.meta) && (task.req.Get? ==> Unmatched(s, k, task.req.version))
    case Checked(seen) => SameAt(s, u, k) && Passed(s, task.req, seen)
    case Stored(seen) => Passed(s, task.req, seen)
    case Sending(found, sent) =>
      && SameAt(s, u, k) && task.req.Get? && Unmatched(s, k, task.req.version) && k in s.store
      && found == s.store[k] && task.req.version + |sent| < |found.parts|
      && sent == found.parts[task.req.version..task.req.version + |sent|]
    case Leaving(answer) => answer == Expected(s, task.req)
    case Finished(answer) => answer == Expected(s, task.req)
    case _ => false
  }

  /** A write that its check let pass. */
  predicate Passed(s: State, req: Request, seen: Option<Object>)
  {
    match req
    case Put(k, _, _) => k !in s.meta && k !in s.store
    case Patch(k, dataType, _) => k in s.store && s.store[k].dataType == dataType && seen == Some(s.store[k])
    case CompareAndDelete(k, version, creationTime) =>
      k in s.meta && s.meta[k].version == version && s.meta[k].creationTime == creationTime
    case _ => false
  }

  // ---- Its own steps ---------------------------------------------------------------------

  /** A step of operation `o` itself, with no failing storage call. */
  predicate OwnStep(u: State, e: Event, o: nat)
  {
    && Enabled(u, e) && !e.Start? && e.op == o && !u.ops[o].req.Delete?
    && (e.Check? || e.Write? || e.Send? ==> e.ok)
  }

  lemma ProbeOnCourse(s: State, u: State, o: nat)
    requires OwnStep(u, Probe(o), o) && OnCourse(s, u, u.ops[o])
    ensures OnCourse(s, Apply(u, Probe(o)), Apply(u, Probe(o)).ops[o])
  {
  }

  /** A reader's look at the store. */
  lemma LookOnCourse(s: State, u: State, task: Task)
    requires task.req.Get? && task.phase.Probed? && OnCourse(s, u, task)
    ensures OnCourse(s, u, task.(phase := CheckOutcome(u, task)))
  {
    if task.req.key in s.store {
      var parts := s.store[task.req.key].parts;
      if task.req.version <= |parts| {
        assert parts[task.req.version..task.req.version] == [];
        assert task.req.version == |parts| ==> parts[task.req.version..] == [];
      }
    }
  }

  /** A writer's check. */
  lemma WriterOnCourse(s: State, u: State, task: Task)
    requires !task.req.Get? && CheckPoint(task) && OnCourse(s, u, task)
    ensures OnCourse(s, u, task.(phase := CheckOutcome(u, task)))
  {
  }

  lemma CheckOnCourse(s: State, u: State, o: nat)
    requires OwnStep(u, Check(o, true), o) && OnCourse(s, u, u.ops[o])
    ensures OnCourse(s, Apply(u, Check(o, true)), Apply(u, Check(o, true)).ops[o])
  {
    var task := u.ops[o];
    if task.req.Get? { LookOnCourse(s, u, task); } else { WriterOnCourse(s, u, task); }
    CheckMoves(u, o);
    OnCourseFrame(s, u, Apply(u, Check(o, true)), task.(phase := CheckOutcome(u, task)));
  }

  lemma CheckMoves(u: State, o: nat)
    requires Enabled(u, Check(o, true))
    ensures var t := Apply(u, Check(o, true));
      t.ops[o] == u.ops[o].(phase := CheckOutcome(u, u.ops[o])) && t.store == u.store && t.meta == u.meta
  {
  }

  predicate HasAnswer(t: Task) { t.phase.Leaving? || t.phase.Finished? }

  lemma OnCourseFrame(s: State, u: State, t: State, task: Task)
    requires !task.req.Delete? && OnCourse(s, u, task) && (!HasAnswer(task) ==> SameAt(u, t, task.req.key))
    ensures OnCourse(s, t, task)
  {
  }

  lemma SendOnCourse(s: State, u: State, o: nat)
    requires OwnStep(u, Send(o, true), o) && OnCourse(s, u, u.ops[o])
    ensures OnCourse(s, Apply(u, Send(o, true)), Apply(u, Send(o, true)).ops[o])
  {
    var task := u.ops[o];
    var found, sent, version := task.phase.found, task.phase.sent, task.req.version;
    var more := sent + [found.parts[version + |sent|]];
    assert more == found.parts[version..version + |more|];
    assert version + |more| == |found.parts| ==> more == found.parts[version..];
  }

  lemma WriteOnCourse(s: State, u: State, o: nat)
    requires OwnStep(u, Write(o, true), o) && OnCourse(s, u, u.ops[o])
    ensures OnCourse(s, ApplyWrite(u, o, true), ApplyWrite(u, o, true).ops[o])
  {
    WriteMoves(u, o, true);
  }

  lemma RecordOnCourse(s: State, u: State, o: nat)
    requires OwnStep(u, Record(o), o) && OnCourse(s, u, u.ops[o])
    ensures OnCourse(s, ApplyRecord(u, o), ApplyRecord(u, o).ops[o])
  {
    RecordMoves(u, o);
  }

  lemma OwnOnCourse(s: State, u: State, e: Event, o: nat)
    requires OwnStep(u, e, o) && OnCourse(s, u, u.ops[o])
    ensures o < |Apply(u, e).ops| && Apply(u, e).ops[o].req == u.ops[o].req
    ensures OnCourse(s, Apply(u, e), Apply(u, e).ops[o])
  {
    RequestsKept(u, e);
    match e
    case Probe(_) => ProbeOnCourse(s, u, o);
    case Check(_, _) => CheckOnCourse(s, u, o);
    case Send(_, _) => SendOnCourse(s, u, o);
    case Write(_, _) => WriteOnCourse(s, u, o);
    case Record(_) => RecordOnCourse(s, u, o);
    case _ =>
  }

  // ---- Steps of others -------------------------------------------------------------------

  /** A step in which a delete reaches a key it covers and did not lock. */
  predicate ReachesUnlocked(u: State, e: Event, k: Key)
  {
    (e.Write? || e.Record?) && e.op < |u.ops| && Exposed(u.ops[e.op], k)
  }

  lemma OtherWriteLeaves(u: State, p: nat, ok: bool, o: nat, k: Key)
    requires TrueInv(u) && Enabled(u, Write(p, ok)) && p != o && o < |u.ops| && Holds(u.ops[o], k)
    requires !Exposed(u.ops[p], k)
    ensures SameAt(u, ApplyWrite(u, p, ok), k)
  {
    var task := u.ops[p];
    assert TaskOk(task) && TaskTrue(u, task);
    WriteMetaKept(u, p, ok);
    if task.req.Delete? {
      DeleteHoldsPlan(task, k);
      if k in task.plan { Exclusive(u, k, p, o); }
    } else {
      HoldsOwnKey(task);
      if task.req.key == k { Exclusive(u, k, p, o); }
      if task.req.CompareAndDelete? { OwnErase(u, task.req.key); }
    }
  }

  lemma OtherRecordLeaves(u: State, p: nat, o: nat, k: Key)
    requires TrueInv(u) && Enabled(u, Record(p)) && p != o && o < |u.ops| && Holds(u.ops[o], k)
    requires !Exposed(u.ops[p], k)
    ensures SameAt(u, ApplyRecord(u, p), k)
  {
    var task := u.ops[p];
    assert TaskOk(task);
    if task.req.Delete? {
      DeleteHoldsPlan(task, k);
      if k in task.plan { Exclusive(u, k, p, o); }
    } else {
      HoldsOwnKey(task);
      if task.req.key == k { Exclusive(u, k, p, o); }
    }
    RecordElsewhere(u, p, k);
  }

  lemma RecordElsewhere(u: State, p: nat, k: Key)
    requires p < |u.ops| && if u.ops[p].req.Delete? then !Matches(u.ops[p].req.filter, k) else u.ops[p].req.key != k
    ensures SameAt(u, ApplyRecord(u, p), k)
  {
  }

  /** What is under a key that operation `o` holds is left alone by the others' steps, except where a
      delete reaches it without its lock. */
  lemma OthersLeave(u: State, e: Event, o: nat, k: Key)
    requires TrueInv(u) && Enabled(u, e) && o < |u.ops| && Holds(u.ops[o], k) && (e.Start? || e.op != o)
    requires !ReachesUnlocked(u, e, k)
    ensures SameAt(u, Apply(u, e), k)
  {
    match e
    case Write(p, ok) => OtherWriteLeaves(u, p, ok, o, k);
    case Record(p) => OtherRecordLeaves(u, p, o, k);
    case _ => QuietLeaves(u, e, k);
  }

  lemma QuietLeaves(u: State, e: Event, k: Key)
    requires Enabled(u, e) && !e.Write? && !e.Record?
    ensures SameAt(u, Apply(u, e), k)
  {
    StoreKept(u, e);
    RequestsKept(u, e);
  }

  lemma OtherOnCourse(s: State, u: State, e: Event, o: nat)
    requires TrueInv(u) && Enabled(u, e) && o < |u.ops| && (e.Start? || e.op != o)
    requires !u.ops[o].req.Delete? && OnCourse(s, u, u.ops[o])
    requires HasAnswer(u.ops[o]) || !ReachesUnlocked(u, e, u.ops[o].req.key)
    ensures o < |Apply(u, e).ops| && Apply(u, e).ops[o] == u.ops[o]
    ensures OnCourse(s, Apply(u, e), Apply(u, e).ops[o])
  {
    OthersUntouched(u, e, o);
    if !HasAnswer(u.ops[o]) {
      assert TaskOk(u.ops[o]);
      HoldsOwnKey(u.ops[o]);
      OthersLeave(u, e, o, u.ops[o].req.key);
    }
    OnCourseFrame(s, u, Apply(u, e), u.ops[o]);
  }

  // ---- Whole runs ------------------------------------------------------------------------

  /** Until `o` is answered: its own storage calls succeed, and no delete reaches its key without a
      lock. */
  predicate Served(u: State, events: seq<Event>, o: nat)
    requires IsRun(u, events)
    decreases |events|
  {
    events == [] || (ServedStep(u, events[0], o) && Served(Apply(u, events[0]), events[1..], o))
  }

  predicate ServedStep(u: State, e: Event, o: nat)
  {
    || o >= |u.ops| || u.ops[o].req.Delete? || HasAnswer(u.ops[o])
    || if e.Start? || e.op != o then !ReachesUnlocked(u, e, u.ops[o].req.key) else OwnStep(u, e, o)
  }

  lemma StepOnCourse(s: State, u: State, e: Event, o: nat)
    requires TrueInv(u) && Enabled(u, e) && o < |u.ops| && !u.ops[o].req.Delete? && OnCourse(s, u, u.ops[o])
    requires ServedStep(u, e, o)
    ensures o < |Apply(u, e).ops| && Apply(u, e).ops[o].req == u.ops[o].req
    ensures OnCourse(s, Apply(u, e), Apply(u, e).ops[o])
  {
    if e.Start? || e.op != o {
      OtherOnCourse(s, u, e, o);
    } else if OwnStep(u, e, o) {
      OwnOnCourse(s, u, e, o);
    } else {
      LeavingOnCourse(s, u, e, o);
    }
  }

  /** An answer stays. */
  lemma LeavingOnCourse(s: State, u: State, e: Event, o: nat)
    requires Enabled(u, e) && !e.Start? && e.op == o && !u.ops[o].req.Delete? && HasAnswer(u.ops[o])
    requires OnCourse(s, u, u.ops[o])
    ensures o < |Apply(u, e).ops| && Apply(u, e).ops[o].req == u.ops[o].req
    ensures OnCourse(s, Apply(u, e), Apply(u, e).ops[o])
  {
  }

  lemma {:induction false} RunOnCourse(s: State, u: State, events: seq<Event>, o: nat)
    requires TrueInv(u) && IsRun(u, events) && o < |u.ops| && !u.ops[o].req.Delete? && OnCourse(s, u, u.ops[o])
    requires Served(u, events, o)
    ensures o < |After(u, events).ops| && After(u, events).ops[o].req == u.ops[o].req
    ensures OnCourse(s, After(u, events), After(u, events).ops[o])
    decreases |events|
  {
    if events != [] {
      StepOnCourse(s, u, events[0], o);
      TrueStep(u, events[0]);
      RunOnCourse(s, Apply(u, events[0]), events[1..], o);
    }
  }

  /** In every run from a loaded store, an operation on one key that has its lock, whose own storage
      calls succeed and whose key no delete reaches without a lock, is answered from what metadata and
      store held when it had its lock, whatever else steps in between. */
  lemma AnswersExactly(store: map<Key, Object>, before: seq<Event>, o: nat, after: seq<Event>)
    requires WellStored(store) && IsRun(Load(store), before)
    requires var s := After(Load(store), before);
      && o < |s.ops| && s.ops[o].phase.Locked? && !s.ops[o].req.Delete?
      && IsRun(s, after) && Served(s, after, o)
    ensures var s := After(Load(store), before);
      var t := After(s, after);
      && o < |t.ops| && t.ops[o].req == s.ops[o].req
      && (HasAnswer(t.ops[o]) ==> t.ops[o].phase.answer == Expected(s, s.ops[o].req))
  {
    var s := After(Load(store), before);
    LoadedTrue(store);
    RunKeepsTrue(Load(store), before);
    RunOnCourse(s, s, after, o);
  }

  /** The answer of a reader, from the object alone: up to date exactly when it asked for the number of
      parts, otherwise the parts after the version it asked for, or refused when it is ahead. */
  lemma ReaderAnswer(store: map<Key, Object>, before: seq<Event>, o: nat, after: seq<Event>)
    requires WellStored(store) && IsRun(Load(store), before)
    requires var s := After(Load(store), before);
      && o < |s.ops| && s.ops[o].phase.Locked? && s.ops[o].req.Get?
      && s.ops[o].req.key in s.meta && s.ops[o].req.key in s.store
      && IsRun(s, after) && Served(s, after, o)
    ensures var s := After(Load(store), before);
      var t := After(s, after);
      var version, found := s.ops[o].req.version, s.store[s.ops[o].req.key];
      && o < |t.ops|
      && (HasAnswer(t.ops[o]) ==>
          t.ops[o].phase.answer ==
          if version > |found.parts| then Failed
          else if version == |found.parts| then UpToDate(version)
          else Content(|found.parts|, found.dataType, found.parts[version..]))
  {
    var s := After(Load(store), before);
    LoadedTrue(store);
    RunKeepsTrue(Load(store), before);
    AnswersExactly(store, before, o, after);
    HolderSees(s, o);
  }

  /** Metadata of an object under a lock that is not in the middle of an update counts its parts. */
  lemma HolderSees(s: State, o: nat)
    requires TrueInv(s) && o < |s.ops| && s.ops[o].phase.Locked? && !s.ops[o].req.Delete?
    requires s.ops[o].req.key in s.meta && s.ops[o].req.key in s.store
    ensures var k := s.ops[o].req.key; s.store[k].parts != [] && s.meta[k] == MetaOf(s.store[k])
  {
    var k := s.ops[o].req.key;
    NotExcused(s, o);
    assert KeyTrue(s, k) && KeyHistory(s, k);
  }

  // ---- What an answer means, in every run ------------------------------------------------

  predicate AnsweredWith(t: Task, req: Request, answer: Response)
  {
    HasAnswer(t) && t.phase.answer == answer && t.req == req
  }

  /** The step `e` gives operation `o` this answer. */
  predicate GivesAnswer(u: State, e: Event, o: nat, req: Request, answer: Response)
  {
    && Enabled(u, e) && (o < |u.ops| ==> !HasAnswer(u.ops[o]))
    && o < |Apply(u, e).ops| && AnsweredWith(Apply(u, e).ops[o], req, answer)
  }

  /** The step that answers an operation. */
  lemma {:induction false} AnswerPoint(s: State, events: seq<Event>, o: nat, req: Request, answer: Response)
    returns (before: seq<Event>, e: Event, rest: seq<Event>)
    requires IsRun(s, events) && (o < |s.ops| ==> !HasAnswer(s.ops[o]))
    requires o < |After(s, events).ops| && AnsweredWith(After(s, events).ops[o], req, answer)
    ensures events == before + [e] + rest && IsRun(s, before)
    ensures GivesAnswer(After(s, before), e, o, req, answer)
    decreases |events|
  {
    assert events != [];
    var n := |events| - 1;
    var front := events[..n];
    LastStep(s, events);
    var u := After(s, front);
    assert events == front + [events[n]];
    if o < |u.ops| && HasAnswer(u.ops[o]) {
      AnswerKept(u, events[n], o);
      var later;
      before, e, later := AnswerPoint(s, front, o, req, answer);
      rest := later + [events[n]];
    } else {
      before, e, rest := front, events[n], [];
    }
  }

  /** The last step of a run. */
  lemma {:induction false} LastStep(s: State, events: seq<Event>)
    requires IsRun(s, events) && events != []
    ensures var n := |events| - 1;
      && IsRun(s, events[..n]) && Enabled(After(s, events[..n]), events[n])
      && After(s, events) == Apply(After(s, events[..n]), events[n])
    decreases |events|
  {
    var n := |events| - 1;
    if n > 0 {
      LastStep(Apply(s, events[0]), events[1..]);
      assert events[1..][..n - 1] == events[..n][1..];
    }
  }

  lemma {:induction false} AnswerStays(s: State, events: seq<Event>, o: nat)
    requires IsRun(s, events) && o < |s.ops| && HasAnswer(s.ops[o])
    ensures o < |After(s, events).ops| && AnsweredWith(After(s, events).ops[o], s.ops[o].req, s.ops[o].phase.answer)
    decreases |events|
  {
    if events != [] {
      AnswerKept(s, events[0], o);
      AnswerStays(Apply(s, events[0]), events[1..], o);
    }
  }

  lemma AnswerKept(s: State, e: Event, o: nat)
    requires Enabled(s, e) && o < |s.ops| && HasAnswer(s.ops[o])
    ensures o < |Apply(s, e).ops| && AnsweredWith(Apply(s, e).ops[o], s.ops[o].req, s.ops[o].phase.answer)
  {
    if e.Start? || e.op != o { OthersUntouched(s, e, o); }
  }

  /** Which step gives which answer. */
  lemma AnswerStep(u: State, e: Event, o: nat, req: Request, answer: Response)
    requires LockInv(u) && GivesAnswer(u, e, o, req, answer)
    ensures o < |u.ops| && !e.Start? && e.op == o && u.ops[o].req == req
    ensures answer.UpToDate? ==> e.Probe? && req.Get?
    ensures answer.Version? ==> e.Record?
    ensures answer.Deleted? ==> e.Record? || e.Check?
  {
    RequestsKept(u, e);
    if o < |u.ops| && (e.Start? || e.op != o) { OthersUntouched(u, e, o); }
    if !e.Start? && e.op == o {
      assert TaskOk(u.ops[o]);
      if e.Write? { WriteGivesFailed(u, o, e.ok); }
    }
  }

  lemma WriteGivesFailed(u: State, o: nat, ok: bool)
    requires Enabled(u, Write(o, ok)) && HasAnswer(ApplyWrite(u, o, ok).ops[o])
    ensures ApplyWrite(u, o, ok).ops[o].phase.answer.Failed?
  {
    WriteMoves(u, o, ok);
  }

  /** In every run from a loaded store, whatever deletes overlap: a reader answered that it is up to date
      asked for a version other than 0, and when it looked metadata named its key with exactly that
      version. If the object was stored then, it had exactly that many parts. */
  lemma UpToDateMeans(store: map<Key, Object>, events: seq<Event>, o: nat)
    returns (before: seq<Event>, rest: seq<Event>)
    requires WellStored(store) && IsRun(Load(store), events)
    requires var t := After(Load(store), events);
      o < |t.ops| && HasAnswer(t.ops[o]) && t.ops[o].phase.answer.UpToDate?
    ensures events == before + [Probe(o)] + rest && IsRun(Load(store), before)
    ensures var s, t := After(Load(store), before), After(Load(store), events);
      var v := t.ops[o].phase.answer.version;
      && t.ops[o].req.Get? && t.ops[o].req.version == v != 0
      && t.ops[o].req.key in s.meta && s.meta[t.ops[o].req.key].version == v
      && (t.ops[o].req.key in s.store ==> |s.store[t.ops[o].req.key].parts| == v)
  {
    var e;
    var task := After(Load(store), events).ops[o];
    before, e, rest := AnswerPoint(Load(store), events, o, task.req, task.phase.answer);
    var s := After(Load(store), before);
    LoadedTrue(store);
    RunKeepsTrue(Load(store), before);
    AnswerStep(s, e, o, task.req, task.phase.answer);
    if s.ops[o].req.key in s.meta && s.ops[o].req.key in s.store { HolderSees(s, o); }
  }

  predicate NoCall(events: seq<Event>, o: nat) { Write(o, true) !in events && Write(o, false) !in events }

  /** What the program point of a compare-and-delete says about its storage call. */
  predicate CallNoted(events: seq<Event>, o: nat, t: Task)
  {
    match t.phase
    case Stored(_) => Write(o, true) in events
    case Leaving(Deleted(done)) => if done then Write(o, true) in events else NoCall(events, o)
    case Finished(Deleted(done)) => if done then Write(o, true) in events else NoCall(events, o)
    case Leaving(_) => true
    case Finished(_) => true
    case _ => NoCall(events, o)
  }

  lemma OwnCallNoted(u: State, front: seq<Event>, e: Event, o: nat)
    requires LockInv(u) && Enabled(u, e) && !e.Start? && e.op == o && u.ops[o].req.CompareAndDelete?
    requires CallNoted(front, o, u.ops[o])
    ensures o < |Apply(u, e).ops| && CallNoted(front + [e], o, Apply(u, e).ops[o])
  {
    assert TaskOk(u.ops[o]);
    RequestsKept(u, e);
    if e.Write? {
      WriteMoves(u, o, e.ok);
      if ApplyWrite(u, o, e.ok).ops[o].phase.Leaving? { WriteGivesFailed(u, o, e.ok); }
    }
    if e.Record? { RecordMoves(u, o); }
  }

  lemma {:induction false} RunNotesCalls(store: map<Key, Object>, events: seq<Event>, o: nat)
    requires WellStored(store) && IsRun(Load(store), events)
    requires o < |After(Load(store), events).ops| && After(Load(store), events).ops[o].req.CompareAndDelete?
    ensures CallNoted(events, o, After(Load(store), events).ops[o])
    decreases |events|
  {
    if events != [] {
      var n := |events| - 1;
      var front := events[..n];
      LastStep(Load(store), events);
      var u := After(Load(store), front);
      assert events == front + [events[n]];
      LoadedTrue(store);
      RunKeepsTrue(Load(store), front);
      if o < |u.ops| {
        RequestsKept(u, events[n]);
        RunNotesCalls(store, front, o);
      } else {
        NotYetCalled(store, front, o);
      }
      CallNotedStep(u, front, events[n], o);
    }
  }

  lemma CallNotedStep(u: State, front: seq<Event>, e: Event, o: nat)
    requires LockInv(u) && Enabled(u, e) && o < |Apply(u, e).ops| && Apply(u, e).ops[o].req.CompareAndDelete?
    requires if o < |u.ops| then CallNoted(front, o, u.ops[o]) else NoCall(front, o)
    ensures CallNoted(front + [e], o, Apply(u, e).ops[o])
  {
    RequestsKept(u, e);
    if o < |u.ops| {
      if e.Start? || e.op != o { OthersUntouched(u, e, o); } else { OwnCallNoted(u, front, e, o); }
    }
  }

  /** An operation that has not started has made no call. */
  lemma {:induction false} NotYetCalled(store: map<Key, Object>, events: seq<Event>, o: nat)
    requires IsRun(Load(store), events) && |After(Load(store), events).ops| <= o
    ensures NoCall(events, o)
    decreases |events|
  {
    if events != [] {
      var n := |events| - 1;
      LastStep(Load(store), events);
      var u := After(Load(store), events[..n]);
      RequestsKept(u, events[n]);
      NotYetCalled(store, events[..n], o);
      assert events == events[..n] + [events[n]];
    }
  }

  /** In every run from a loaded store: a compare-and-delete answered that it is done made its storage
      call, successfully; one answered that it is not done made none. */
  lemma DeletedMeans(store: map<Key, Object>, events: seq<Event>, o: nat, done: bool)
    requires WellStored(store) && IsRun(Load(store), events)
    requires var t := After(Load(store), events);
      o < |t.ops| && t.ops[o].req.CompareAndDelete? && AnsweredWith(t.ops[o], t.ops[o].req, Deleted(done))
    ensures if done then Write(o, true) in events else NoCall(events, o)
  {
    RunNotesCalls(store, events, o);
  }

  /** A patch that is past its check, and what it saw. */
  predicate Saw(t: Task, seen: Object)
  {
    t.req.Patch? && (t.phase == Checked(Some(seen)) || t.phase == Stored(Some(seen)))
  }

  /** Where a patch that is past its check looked at the object. */
  lemma {:induction false} SeenPoint(store: map<Key, Object>, events: seq<Event>, o: nat, seen: Object)
    returns (before: seq<Event>, rest: seq<Event>)
    requires WellStored(store) && IsRun(Load(store), events)
    requires o < |After(Load(store), events).ops| && Saw(After(Load(store), events).ops[o], seen)
    ensures events == before + [Check(o, true)] + rest && IsRun(Load(store), before)
    ensures var s, req := After(Load(store), before), After(Load(store), events).ops[o].req;
      req.key in s.store && s.store[req.key] == seen && seen.dataType == req.dataType
    decreases |events|
  {
    var n := |events| - 1;
    var front, e := events[..n], events[n];
    LastStep(Load(store), events);
    var u := After(Load(store), front);
    assert events == front + [e];
    SeenStep(u, e, o, seen);
    if e == Check(o, true) {
      before, rest := front, [];
    } else {
      before, rest := SeenPoint(store, front, o, seen);
      rest := rest + [e];
    }
  }

  lemma SeenStep(u: State, e: Event, o: nat, seen: Object)
    requires Enabled(u, e) && o < |Apply(u, e).ops| && Saw(Apply(u, e).ops[o], seen)
    ensures o < |u.ops| && u.ops[o].req == Apply(u, e).ops[o].req
    ensures if e == Check(o, true) then SeesNow(u, u.ops[o].req, seen) else Saw(u.ops[o], seen)
  {
    RequestsKept(u, e);
    if o < |u.ops| {
      if e.Start? || e.op != o { OthersUntouched(u, e, o); } else { SeenOwnStep(u, e, o, seen); }
    }
  }

  predicate SeesNow(u: State, req: Request, seen: Object)
    requires req.Patch?
  {
    req.key in u.store && u.store[req.key] == seen && seen.dataType == req.dataType
  }

  lemma SeenOwnStep(u: State, e: Event, o: nat, seen: Object)
    requires Enabled(u, e) && !e.Start? && e.op == o && o < |Apply(u, e).ops| && Saw(Apply(u, e).ops[o], seen)
    ensures u.ops[o].req.Patch?
    ensures if e == Check(o, true) then SeesNow(u, u.ops[o].req, seen) else Saw(u.ops[o], seen)
  {
    match e
    case Write(_, ok) => SeenWrite(u, o, ok, seen);
    case Record(_) => RecordMoves(u, o);
    case Check(_, _) =>
    case _ =>
  }

  lemma SeenWrite(u: State, o: nat, ok: bool, seen: Object)
    requires Enabled(u, Write(o, ok)) && Saw(ApplyWrite(u, o, ok).ops[o], seen)
    ensures Saw(u.ops[o], seen)
  {
    WriteMoves(u, o, ok);
  }

  /** In every run from a loaded store: a patch answered with a version found the object stored, of its
      own data type, with one part less than that version. */
  lemma PatchedMeans(store: map<Key, Object>, events: seq<Event>, o: nat)
    returns (before: seq<Event>, rest: seq<Event>)
    requires WellStored(store) && IsRun(Load(store), events)
    requires var t := After(Load(store), events);
      o < |t.ops| && t.ops[o].req.Patch? && HasAnswer(t.ops[o]) && t.ops[o].phase.answer.Version?
    ensures events == before + [Check(o, true)] + rest && IsRun(Load(store), before)
    ensures var s, task := After(Load(store), before), After(Load(store), events).ops[o];
      && task.req.key in s.store && s.store[task.req.key].dataType == task.req.dataType
      && task.phase.answer.version == |s.store[task.req.key].parts| + 1
  {
    var task := After(Load(store), events).ops[o];
    var until, e, later := AnswerPoint(Load(store), events, o, task.req, task.phase.answer);
    var u := After(Load(store), until);
    LoadedTrue(store);
    RunKeepsTrue(Load(store), until);
    AnswerStep(u, e, o, task.req, task.phase.answer);
    assert TaskOk(u.ops[o]);
    before, rest := SeenPoint(store, until, o, u.ops[o].phase.seen.value);
    rest := rest + [e] + later;
  }

  // ---- Calls that fail, and deletes ------------------------------------------------------

  /** A storage call that fails changes nothing and its operation is answered so. */
  lemma FailedCall(u: State, e: Event)
    requires Enabled(u, e) && (e.Check? || e.Write? || e.Send?) && !e.ok
    ensures Apply(u, e).store == u.store && Apply(u, e).meta == u.meta
    ensures AnsweredWith(Apply(u, e).ops[e.op], u.ops[e.op].req, Failed)
  {
    RequestsKept(u, e);
    if e.Write? { WriteMoves(u, e.op, e.ok); }
  }

  /** A delete's storage call takes exactly the covered objects from the store, its metadata update
      exactly the covered keys from metadata, and then it is answered. */
  lemma DeleteTakesCovered(u: State, e: Event, k: Key)
    requires Enabled(u, e) && ((e.Write? && e.ok) || e.Record?) && u.ops[e.op].req.Delete?
    ensures var t, gone := Apply(u, e), Matches(u.ops[e.op].req.filter, k);
      && (k in t.store <==> k in u.store && !(gone && e.Write?)) && (k in t.store ==> t.store[k] == u.store[k])
      && (k in t.meta <==> k in u.meta && !(gone && e.Record?)) && (k in t.meta ==> t.meta[k] == u.meta[k])
    ensures e.Record? ==> AnsweredWith(Apply(u, e).ops[e.op], u.ops[e.op].req, Deleted(true))
  {
    RequestsKept(u, e);
    if e.Write? { WriteMetaKept(u, e.op, true); } else { RecordMoves(u, e.op); }
  }
}
