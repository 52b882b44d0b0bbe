/** Whole runs of the two event managers, told apart only by records made while a session is not
    set up and by writes and removals that the file system fails, and a second file-backed manager
    opened over the files of the first. */
module EventRuns {
  import opened Wrappers
  import opened Events
  import opened FsEvents

  /** A call, with what the file system does: `stage` is the write of a record that fails, if any, and
      `removable` says whether a session's directory can be removed. */
  datatype Op =
    | Setup(session: SessionId)
    | Record(owner: Owner, event: Event, stage: Stage)
    | Find(owner: Owner)
    | Remove(session: SessionId, removable: bool)

  datatype Reply = Done | Refused | Listed(events: seq<Event>)

  /** The sessions set up, and not removed since, after these calls. */
  function Open(ops: seq<Op>): set<SessionId>
  {
    if ops == [] then {}
    else
      var front := Open(ops[..|ops| - 1]);
      match ops[|ops| - 1]
      case Setup(s) => front + {s}
      case Remove(s, removable) => if removable then front - {s} else front
      case _ => front
  }

  /** Is this record taken? The in-memory manager takes every one. */
  predicate Taken(before: seq<Op>, o: Owner, stage: Stage, strict: bool)
  {
    !strict || (o.session in Open(before) && stage.AllWritten?)
  }

  /** Does this removal succeed? The in-memory manager's always does. */
  predicate Gone(before: seq<Op>, session: SessionId, removable: bool, strict: bool)
  {
    !strict || removable || session !in Open(before)
  }

  /** What one owner has recorded since its session was last removed, oldest first. */
  function Since(ops: seq<Op>, o: Owner, strict: bool): seq<Event>
  {
    if ops == [] then []
    else
      var before := ops[..|ops| - 1];
      match ops[|ops| - 1]
      case Record(p, e, stage) =>
        if p == o && Taken(before, p, stage, strict) then Since(before, o, strict) + [Recorded(e)]
        else Since(before, o, strict)
      case Remove(s, removable) =>
        if s == o.session && Gone(before, s, removable, strict) then [] else Since(before, o, strict)
      case _ => Since(before, o, strict)
  }

  /** One more call, seen by one owner. */
  lemma SinceSnoc(before: seq<Op>, op: Op, o: Owner, strict: bool)
    ensures Since(before + [op], o, strict) ==
      if op.Record? && op.owner == o && Taken(before, o, op.stage, strict) then
        Since(before, o, strict) + [Recorded(op.event)]
      else if op.Remove? && op.session == o.session && Gone(before, op.session, op.removable, strict) then []
      else Since(before, o, strict)
  {
    assert (before + [op])[..|before|] == before;
  }

  lemma OpenSnoc(before: seq<Op>, op: Op)
    ensures Open(before + [op]) ==
      if op.Setup? then Open(before) + {op.session}
      else if op.Remove? && op.removable then Open(before) - {op.session}
      else Open(before)
  {
    assert (before + [op])[..|before|] == before;
  }

  function ReplyTo(before: seq<Op>, op: Op, strict: bool): Reply
  {
    match op
    case Record(o, _, stage) => if Taken(before, o, stage, strict) then Done else Refused
    case Find(o) => Listed(Since(before, o, strict))
    case Remove(s, removable) => if Gone(before, s, removable, strict) then Done else Refused
    case _ => Done
  }

  function Replies(ops: seq<Op>, strict: bool): seq<Reply>
  {
    if ops == [] then []
    else Replies(ops[..|ops| - 1], strict) + [ReplyTo(ops[..|ops| - 1], ops[|ops| - 1], strict)]
  }

  /** Every record is made while its session is set up, no write fails, and no session that is set up
      meets a directory that cannot be removed. */
  predicate Disciplined(ops: seq<Op>)
  {
    ops == []
    || (var before, op := ops[..|ops| - 1], ops[|ops| - 1];
        && Disciplined(before)
        && (op.Record? ==> Taken(before, op.owner, op.stage, true))
        && (op.Remove? ==> Gone(before, op.session, op.removable, true)))
  }

  lemma {:induction false} SameSince(ops: seq<Op>, o: Owner)
    requires Disciplined(ops)
    ensures Since(ops, o, true) == Since(ops, o, false)
  {
    if ops != [] { SameSince(ops[..|ops| - 1], o); }
  }

  lemma {:induction false} RepliesLength(ops: seq<Op>, strict: bool)
    ensures |Replies(ops, strict)| == |ops|
  {
    if ops != [] { RepliesLength(ops[..|ops| - 1], strict); }
  }

  /** The two managers give the same replies over a run exactly when it records only into sessions
      that are set up, and the file system fails no write or removal. */
  lemma {:induction false} SameReplies(ops: seq<Op>)
    ensures Replies(ops, true) == Replies(ops, false) <==> Disciplined(ops)
  {
    if ops != [] {
      var before, op := ops[..|ops| - 1], ops[|ops| - 1];
      SameReplies(before);
      RepliesLength(before, true);
      RepliesLength(before, false);
      assert Replies(ops, true)[..|before|] == Replies(before, true);
      assert Replies(ops, false)[..|before|] == Replies(before, false);
      assert Replies(ops, true)[|before|] == ReplyTo(before, op, true);
      assert Replies(ops, false)[|before|] == ReplyTo(before, op, false);
      if Disciplined(before) && op.Find? { SameSince(before, op.owner); }
    }
  }

  method StepMemory(m: MemoryEventManager, ghost before: seq<Op>, op: Op) returns (reply: Reply)
    requires m.Valid() && forall o :: m.Found(o) == Since(before, o, false)
    modifies m
    ensures m.Valid() && forall o :: m.Found(o) == Since(before + [op], o, false)
    ensures reply == ReplyTo(before, op, false)
  {
    reply := Done;
    match op {
      case Setup(s) => m.SetupEvents(s);
      case Record(o, e, _) => m.RecordEvent(o, e);
      case Find(o) =>
        var found := m.FindEvents(o);
        reply := Listed(found.value);
      case Remove(s, _) => m.RemoveEvents(s);
    }
    forall o ensures m.Found(o) == Since(before + [op], o, false) {
      SinceSnoc(before, op, o, false);
    }
  }

  method RunMemory(ops: seq<Op>) returns (replies: seq<Reply>)
    ensures replies == Replies(ops, false)
  {
    var m := new MemoryEventManager();
    replies := [];
    for i := 0 to |ops|
      invariant fresh(m) && m.Valid() && forall o :: m.Found(o) == Since(ops[..i], o, false)
      invariant replies == Replies(ops[..i], false)
    {
      assert ops[..i + 1] == ops[..i] + [ops[i]];
      assert ops[..i + 1][..i] == ops[..i];
      var reply := StepMemory(m, ops[..i], ops[i]);
      replies := replies + [reply];
    }
    assert ops[..|ops|] == ops;
  }

  /** The manager's state after these calls on an empty directory. */
  ghost predicate Follows(m: FsEventManager, ops: seq<Op>)
    reads m
  {
    && m.Valid() && m.registry.Keys == Open(ops) && m.closed == map[]
    && forall o :: m.Found(o) == Since(ops, o, true)
  }

  method StepFiles(m: FsEventManager, ghost before: seq<Op>, op: Op) returns (reply: Reply)
    requires Follows(m, before)
    modifies m
    ensures Follows(m, before + [op])
    ensures reply == ReplyTo(before, op, true)
  {
    match op {
      case Setup(s) =>
        SetUpFiles(m, before, s);
        reply := Done;
      case Record(o, e, stage) => reply := RecordInFiles(m, before, o, e, stage);
      case Find(o) =>
        var found := m.FindEvents(o);
        FollowsFind(m, before, o);
        reply := Listed(found.value);
      case Remove(s, removable) => reply := RemoveFromFiles(m, before, s, removable);
    }
  }

  lemma FollowsFind(m: FsEventManager, before: seq<Op>, o: Owner)
    requires Follows(m, before)
    ensures Follows(m, before + [Find(o)])
  {
    OpenSnoc(before, Find(o));
    forall p ensures m.Found(p) == Since(before + [Find(o)], p, true) { SinceSnoc(before, Find(o), p, true); }
  }

  method SetUpFiles(m: FsEventManager, ghost before: seq<Op>, s: SessionId)
    requires Follows(m, before)
    modifies m
    ensures Follows(m, before + [Setup(s)])
  {
    OpenSnoc(before, Setup(s));
    m.SetupEvents(s);
    forall o ensures m.Found(o) == Since(before + [Setup(s)], o, true) { SinceSnoc(before, Setup(s), o, true); }
  }

  method RecordInFiles(m: FsEventManager, ghost before: seq<Op>, o: Owner, e: Event, stage: Stage)
    returns (reply: Reply)
    requires Follows(m, before)
    modifies m
    ensures Follows(m, before + [Record(o, e, stage)])
    ensures reply == ReplyTo(before, Record(o, e, stage), true)
  {
    ghost var op := Record(o, e, stage);
    OpenSnoc(before, op);
    var ok := m.RecordEvent(o, e, stage);
    reply := if ok then Done else Refused;
    forall p ensures m.Found(p) == Since(before + [op], p, true) { SinceSnoc(before, op, p, true); }
  }

  method RemoveFromFiles(m: FsEventManager, ghost before: seq<Op>, s: SessionId, removable: bool)
    returns (reply: Reply)
    requires Follows(m, before)
    modifies m
    ensures Follows(m, before + [Remove(s, removable)])
    ensures reply == ReplyTo(before, Remove(s, removable), true)
  {
    ghost var op := Remove(s, removable);
    OpenSnoc(before, op);
    assert m.Disk().Keys == m.registry.Keys;
    var ok := m.RemoveEvents(s, removable);
    reply := if ok then Done else Refused;
    assert ok == Gone(before, s, removable, true);
    forall o ensures m.Found(o) == Since(before + [op], o, true) { SinceSnoc(before, op, o, true); }
  }

  method RunFiles(ops: seq<Op>) returns (m: FsEventManager, replies: seq<Reply>)
    ensures fresh(m) && Follows(m, ops)
    ensures replies == Replies(ops, true)
  {
    m := new FsEventManager(map[]);
    replies := [];
    for i := 0 to |ops|
      invariant fresh(m) && Follows(m, ops[..i])
      invariant replies == Replies(ops[..i], true)
    {
      assert ops[..i + 1] == ops[..i] + [ops[i]];
      assert ops[..i + 1][..i] == ops[..i];
      var reply := StepFiles(m, ops[..i], ops[i]);
      replies := replies + [reply];
    }
    assert ops[..|ops|] == ops;
  }

  /** The same calls to both managers: they answer alike exactly when every record goes to a session
      that is set up and the file system fails nothing. */
  method RunBoth(ops: seq<Op>) returns (files: seq<Reply>, memory: seq<Reply>)
    ensures files == Replies(ops, true) && memory == Replies(ops, false)
    ensures files == memory <==> Disciplined(ops)
  {
    var m, replies := RunFiles(ops);
    files := replies;
    memory := RunMemory(ops);
    SameReplies(ops);
  }

  /** A second manager over the first one's files, once set up for the session, lists what the first
      one listed, whatever writes and removals failed before. */
  method Reopen(ops: seq<Op>, o: Owner) returns (before: Result<seq<Event>>, after: Result<seq<Event>>)
    ensures before == after == Ok(Since(ops, o, true))
  {
    var m, _ := RunFiles(ops);
    before := m.FindEvents(o);
    var second := new FsEventManager(m.Disk());
    second.SetupEvents(o.session);
    after := second.FindEvents(o);
  }
}
