/** A session's tasks: a map from id to the newest version, and an index of the same pointers by
    state that the scheduler pops pending tasks from. */
module SessionTasks {
  import opened Wrappers

  datatype TaskState = Pending | Running | Succeed | Failed | Cancelled

  /** `content` stands for the fields the index does not look at. */
  datatype Task = Task(id: nat, version: nat, state: TaskState, content: string)

  // ---- Deliveries, in any order ----------------------------------------------------------

  /** A delivered task replaces the stored one only when its version is higher. */
  function Newer(tasks: map<nat, Task>, t: Task): map<nat, Task>
  {
    if t.id in tasks && tasks[t.id].version >= t.version then tasks else tasks[t.id := t]
  }

  function Deliver(updates: seq<Task>): map<nat, Task>
  {
    if updates == [] then map[] else Newer(Deliver(updates[..|updates| - 1]), updates[|updates| - 1])
  }

  /** Equal id and version mean equal content. */
  predicate OneContent(updates: seq<Task>)
  {
    forall a, b :: a in updates && b in updates && a.id == b.id && a.version == b.version ==> a == b
  }

  /** `tasks` holds, for exactly the delivered ids, a delivered task of the highest version. */
  predicate Highest(updates: seq<Task>, tasks: map<nat, Task>)
  {
    && (forall id :: id in tasks ==> tasks[id].id == id && tasks[id] in updates)
    && (forall t :: t in updates ==> t.id in tasks && t.version <= tasks[t.id].version)
  }

  lemma {:induction false} DeliverIsHighest(updates: seq<Task>)
    ensures Highest(updates, Deliver(updates))
  {
    if updates != [] {
      var n := |updates| - 1;
      DeliverIsHighest(updates[..n]);
      assert updates == updates[..n] + [updates[n]];
    }
  }

  /** Of several updates with the highest version of an id, the first one delivered is kept. */
  lemma {:induction false} FirstIsKept(updates: seq<Task>, id: nat) returns (i: nat)
    requires id in Deliver(updates)
    ensures i < |updates| && updates[i] == Deliver(updates)[id] && updates[i].id == id
    ensures forall j :: 0 <= j < |updates| && updates[j].id == id ==>
      updates[j].version <= updates[i].version && (j < i ==> updates[j].version < updates[i].version)
  {
    var n := |updates| - 1;
    var front, last := updates[..n], updates[n];
    DeliverIsHighest(front);
    assert forall j :: 0 <= j < n ==> front[j] == updates[j];
    if last.id == id && (id !in Deliver(front) || Deliver(front)[id].version < last.version) {
      i := n;
      forall j | 0 <= j < n && updates[j].id == id ensures updates[j].version < last.version {
        assert front[j] in front;
      }
    } else {
      i := FirstIsKept(front, id);
    }
  }

  lemma HighestIsUnique(updates: seq<Task>, m: map<nat, Task>, n: map<nat, Task>)
    requires OneContent(updates) && Highest(updates, m) && Highest(updates, n)
    ensures m == n
  {
    forall id | id in m ensures id in n && m[id] == n[id] {
      assert m[id] in updates;
      assert n[id] in updates;
    }
    forall id | id in n ensures id in m {
      assert n[id] in updates;
    }
  }

  /** Every order and repetition of the same updates ends in the same tasks. */
  lemma DeliveryConverges(a: seq<Task>, b: seq<Task>)
    requires OneContent(a) && forall t :: t in a <==> t in b
    ensures Deliver(a) == Deliver(b)
  {
    DeliverIsHighest(a);
    DeliverIsHighest(b);
    assert Highest(a, Deliver(b));
    HighestIsUnique(a, Deliver(a), Deliver(b));
  }

  /** However deliveries go on, a task once stored stays stored and its version never goes down. */
  lemma {:induction false} VersionsNeverDrop(updates: seq<Task>, n: nat, id: nat)
    requires n <= |updates| && id in Deliver(updates[..n])
    ensures id in Deliver(updates) && Deliver(updates[..n])[id].version <= Deliver(updates)[id].version
    decreases |updates|
  {
    if n == |updates| {
      assert updates[..n] == updates;
    } else {
      var front := updates[..|updates| - 1];
      assert front[..n] == updates[..n];
      VersionsNeverDrop(front, n, id);
      DeliverIsHighest(front);
    }
  }

  // ---- The session -----------------------------------------------------------------------

  class TaskPtr {
    const task: Task
    constructor (task: Task)
      ensures this.task == task
    {
      this.task := task;
    }
  }

  type Bucket = map<nat, TaskPtr>

  ghost predicate BucketOk(tasks: map<nat, TaskPtr>, popped: set<nat>, state: TaskState, bucket: Bucket)
  {
    forall id :: id in bucket ==>
      id in tasks && id !in popped && bucket[id] == tasks[id] && tasks[id].task.state == state
  }

  /** The index holds the very pointers of `tasks` under their own state, except those popped. */
  ghost predicate IndexOk(tasks: map<nat, TaskPtr>, index: map<TaskState, Bucket>, popped: set<nat>)
  {
    && (forall id :: id in tasks ==> tasks[id].task.id == id)
    && (forall s :: s in index ==> BucketOk(tasks, popped, s, index[s]))
    && (forall id :: id in tasks && id !in popped ==>
        tasks[id].task.state in index && id in index[tasks[id].task.state])
    && (forall id :: id in popped ==> id in tasks && tasks[id].task.state == Pending)
  }

  function Values(tasks: map<nat, TaskPtr>): map<nat, Task> { map id | id in tasks :: tasks[id].task }

  /** Ids of the tasks that are indexed under a state. */
  function Indexed(index: map<TaskState, Bucket>, s: TaskState): set<nat>
  {
    if s in index then index[s].Keys else {}
  }

  /** A task is in one bucket at most. */
  lemma BucketsDisjoint(tasks: map<nat, TaskPtr>, index: map<TaskState, Bucket>, popped: set<nat>, a: TaskState,
                        b: TaskState)
    requires IndexOk(tasks, index, popped) && a != b
    ensures Indexed(index, a) !! Indexed(index, b)
  {
    if a in index && b in index {
      assert BucketOk(tasks, popped, a, index[a]) && BucketOk(tasks, popped, b, index[b]);
    }
  }

  function InState(ids: set<nat>, values: map<nat, Task>, s: TaskState): set<nat>
    requires ids <= values.Keys
  {
    set id | id in ids && values[id].state == s
  }

  lemma WithoutOne(ids: set<nat>, id: nat, values: map<nat, Task>, s: TaskState)
    requires ids <= values.Keys && id in ids
    ensures |InState(ids, values, s)| == |InState(ids - {id}, values, s)| + if values[id].state == s then 1 else 0
  {
    var rest := InState(ids - {id}, values, s);
    assert InState(ids, values, s) == if values[id].state == s then rest + {id} else rest;
  }

  lemma {:induction false} StatesPartition(ids: set<nat>, values: map<nat, Task>)
    requires ids <= values.Keys
    ensures |ids| == |InState(ids, values, Pending)| + |InState(ids, values, Running)| + |InState(ids, values, Succeed)|
                   + |InState(ids, values, Failed)| + |InState(ids, values, Cancelled)|
  {
    if ids != {} {
      var id :| id in ids;
      StatesPartition(ids - {id}, values);
      forall s: TaskState { WithoutOne(ids, id, values, s); }
    }
  }

  lemma PartSize(all: set<nat>, part: set<nat>)
    requires part <= all
    ensures |all - part| == |all| - |part|
  {
    assert all == (all - part) + part;
  }

  /** The five counts a session reports add up to its tasks without those popped and not yet
      updated again. */
  lemma CountsAddUp(tasks: map<nat, TaskPtr>, index: map<TaskState, Bucket>, popped: set<nat>)
    requires IndexOk(tasks, index, popped)
    ensures |Indexed(index, Pending)| + |Indexed(index, Running)| + |Indexed(index, Succeed)|
          + |Indexed(index, Failed)| + |Indexed(index, Cancelled)| == |tasks| - |popped|
  {
    IndexedInState(tasks, index, popped, Pending);
    IndexedInState(tasks, index, popped, Running);
    IndexedInState(tasks, index, popped, Succeed);
    IndexedInState(tasks, index, popped, Failed);
    IndexedInState(tasks, index, popped, Cancelled);
    StatesPartition(tasks.Keys - popped, Values(tasks));
    PartSize(tasks.Keys, popped);
  }

  lemma IndexedInState(tasks: map<nat, TaskPtr>, index: map<TaskState, Bucket>, popped: set<nat>, s: TaskState)
    requires IndexOk(tasks, index, popped)
    ensures Indexed(index, s) == InState(tasks.Keys - popped, Values(tasks), s)
  {
    forall id ensures id in Indexed(index, s) <==> id in InState(tasks.Keys - popped, Values(tasks), s) {
      IndexFollowsTasks(tasks, index, popped, s, id);
    }
  }

  /** Tasks, what was popped and the index determine each other up to empty buckets: two sessions
      with the same tasks and the same popped ids index the same tasks under every state. */
  lemma IndexFollowsTasks(tasks: map<nat, TaskPtr>, index: map<TaskState, Bucket>, popped: set<nat>, s: TaskState,
                          id: nat)
    requires IndexOk(tasks, index, popped)
    ensures id in Indexed(index, s) <==> id in Values(tasks) && Values(tasks)[id].state == s && id !in popped
  {
    if s in index { assert BucketOk(tasks, popped, s, index[s]); }
  }

  predicate IsLeast(least: nat, ids: set<nat>) { least in ids && forall i :: i in ids ==> least <= i }

  lemma LeastId(ids: set<nat>) returns (least: nat)
    requires ids != {}
    ensures IsLeast(least, ids)
  {
    least :| least in ids;
    var rest := ids - {least};
    assert forall i :: i in ids ==> i == least || i in rest;
    if rest != {} {
      var other := LeastId(rest);
      if other < least { least := other; }
    }
  }

  class Session {
    var tasks: map<nat, TaskPtr>
    var index: map<TaskState, Bucket>
    /** Tasks popped from the pending bucket and not updated since. */
    ghost var popped: set<nat>

    ghost predicate Valid()
      reads this
    {
      IndexOk(tasks, index, popped)
    }

    constructor ()
      ensures Valid() && tasks == map[] && popped == {}
    {
      tasks, index, popped := map[], map[], {};
    }

    /** An update with a version that is not higher changes nothing; otherwise the task is stored
        and moved to the bucket of its state. */
    method UpdateTask(task: Task)
      requires Valid()
      modifies this
      ensures Valid() && Values(tasks) == Newer(old(Values(tasks)), task)
      ensures popped == if Values(tasks) == old(Values(tasks)) then old(popped) else old(popped) - {task.id}
      ensures Values(tasks) == old(Values(tasks)) ==> tasks == old(tasks) && index == old(index)
    {
      var ptr := new TaskPtr(task);
      if task.id in tasks && tasks[task.id].task.version >= task.version {
        return;
      }
      var buckets := index;
      if task.state !in buckets {
        buckets := buckets[task.state := map[]];
      }
      var cleared := ClearId(buckets, task.id);
      var entered := cleared[task.state := cleared[task.state][task.id := ptr]];
      assert forall s :: s in entered ==> entered[s] == UpdatedBucket(index, s, task, ptr);
      UpdatedIndex(tasks, index, popped, task, ptr, entered);
      UpdatedValues(tasks, task, ptr);
      tasks := tasks[task.id := ptr];
      index := entered;
      popped := popped - {task.id};
    }

    /** The oldest pending task: the indexed one with the least id. */
    method PopPendingTask() returns (r: Option<TaskPtr>)
      requires Valid()
      modifies this`index, this`popped
      ensures Valid()
      ensures r.None? <==> old(Indexed(index, Pending)) == {}
      ensures r.None? ==> popped == old(popped) && index == old(index)
      ensures r.Some? ==>
        var id := r.value.task.id;
        && id in tasks && r.value == tasks[id] && r.value.task.state == Pending
        && IsLeast(id, old(Indexed(index, Pending)))
        && popped == old(popped) + {id} && Indexed(index, Pending) == old(Indexed(index, Pending)) - {id}
    {
      if Pending !in index || index[Pending] == map[] {
        return None;
      }
      var bucket := index[Pending];
      assert BucketOk(tasks, popped, Pending, bucket);
      var id := MinId(bucket.Keys);
      r := Some(bucket[id]);
      PoppedIndex(tasks, index, popped, id);
      index := index[Pending := bucket - {id}];
      popped := popped + {id};
    }

    /** Popping until nothing is pending yields every pending task once, in ascending id order. */
    method DrainPending() returns (ids: seq<nat>)
      requires Valid()
      modifies this`index, this`popped
      ensures Valid() && Indexed(index, Pending) == {}
      ensures Lists(ids, old(Indexed(index, Pending))) && popped == old(popped) + old(Indexed(index, Pending))
      decreases |Indexed(index, Pending)|
    {
      ghost var all, was := Indexed(index, Pending), popped;
      var r := PopPendingTask();
      if r.None? {
        return [];
      }
      var id := r.value.task.id;
      OneLess(all, id, was);
      var rest := DrainPending();
      ids := [id] + rest;
      FirstThenRest(all, id, rest);
    }
  }

  predicate Ascending(ids: seq<nat>) { forall i, j :: 0 <= i < j < |ids| ==> ids[i] < ids[j] }

  /** All of them, once each, in ascending order. */
  ghost predicate Lists(ids: seq<nat>, all: set<nat>) { Ascending(ids) && forall id :: id in ids <==> id in all }

  lemma OneLess(all: set<nat>, id: nat, others: set<nat>)
    requires id in all
    ensures |all - {id}| < |all| && others + {id} + (all - {id}) == others + all
  {
  }

  lemma FirstThenRest(all: set<nat>, least: nat, rest: seq<nat>)
    requires IsLeast(least, all) && Lists(rest, all - {least})
    ensures Lists([least] + rest, all)
  {
    var ids := [least] + rest;
    forall i, j | 0 <= i < j < |ids| ensures ids[i] < ids[j] {
      assert rest[j - 1] in rest;
    }
  }

  method MinId(ids: set<nat>) returns (least: nat)
    requires ids != {}
    ensures IsLeast(least, ids)
  {
    ghost var g := LeastId(ids);
    least :| IsLeast(least, ids);
  }

  /** The loop that takes an id out of every bucket. */
  method ClearId(index: map<TaskState, Bucket>, id: nat) returns (cleared: map<TaskState, Bucket>)
    ensures cleared.Keys == index.Keys && forall s :: s in index ==> cleared[s] == index[s] - {id}
  {
    cleared := index;
    var todo := index.Keys;
    while todo != {}
      invariant todo <= index.Keys && cleared.Keys == index.Keys
      invariant forall s :: s in index ==> cleared[s] == if s in todo then index[s] else index[s] - {id}
      decreases todo
    {
      var s :| s in todo;
      cleared := cleared[s := cleared[s] - {id}];
      todo := todo - {s};
    }
  }

  /** What an update makes of one bucket. */
  function UpdatedBucket(index: map<TaskState, Bucket>, s: TaskState, task: Task, ptr: TaskPtr): Bucket
  {
    var rest := (if s in index then index[s] else map[]) - {task.id};
    if s == task.state then rest[task.id := ptr] else rest
  }

  lemma UpdatedBucketOk(tasks: map<nat, TaskPtr>, index: map<TaskState, Bucket>, popped: set<nat>, s: TaskState,
                        task: Task, ptr: TaskPtr)
    requires s in index ==> BucketOk(tasks, popped, s, index[s])
    requires ptr.task == task
    ensures BucketOk(tasks[task.id := ptr], popped - {task.id}, s, UpdatedBucket(index, s, task, ptr))
  {
  }

  lemma UpdatedIndex(tasks: map<nat, TaskPtr>, index: map<TaskState, Bucket>, popped: set<nat>, task: Task,
                     ptr: TaskPtr, now: map<TaskState, Bucket>)
    requires IndexOk(tasks, index, popped) && ptr.task == task
    requires now.Keys == index.Keys + {task.state}
    requires forall s :: s in now ==> now[s] == UpdatedBucket(index, s, task, ptr)
    ensures IndexOk(tasks[task.id := ptr], now, popped - {task.id})
  {
    var tasks' := tasks[task.id := ptr];
    forall s | s in now ensures BucketOk(tasks', popped - {task.id}, s, now[s]) {
      UpdatedBucketOk(tasks, index, popped, s, task, ptr);
    }
    forall id | id in tasks' && id !in popped - {task.id}
      ensures tasks'[id].task.state in now && id in now[tasks'[id].task.state]
    {
      var state := tasks'[id].task.state;
      if id != task.id { assert state in index && id in index[state]; }
      assert now[state] == UpdatedBucket(index, state, task, ptr);
    }
  }

  lemma UpdatedValues(tasks: map<nat, TaskPtr>, task: Task, ptr: TaskPtr)
    requires ptr.task == task && (task.id in tasks ==> tasks[task.id].task.version < task.version)
    ensures Values(tasks[task.id := ptr]) == Newer(Values(tasks), task) &&
      Values(tasks[task.id := ptr]) != Values(tasks)
  {
    assert Values(tasks[task.id := ptr]) == Values(tasks)[task.id := task];
    assert task.id in Values(tasks) ==> Values(tasks)[task.id] != task;
  }

  lemma PoppedIndex(tasks: map<nat, TaskPtr>, index: map<TaskState, Bucket>, popped: set<nat>, id: nat)
    requires IndexOk(tasks, index, popped) && Pending in index && id in index[Pending]
    ensures IndexOk(tasks, index[Pending := index[Pending] - {id}], popped + {id})
  {
    var now := index[Pending := index[Pending] - {id}];
    assert BucketOk(tasks, popped, Pending, index[Pending]);
    forall s | s in now ensures BucketOk(tasks, popped + {id}, s, now[s]) {
      assert BucketOk(tasks, popped, s, index[s]);
    }
  }

  /** Delivering updates one by one to a new session. */
  method Replay(updates: seq<Task>) returns (session: Session)
    ensures fresh(session) && session.Valid()
    ensures Values(session.tasks) == Deliver(updates) && session.popped == {}
  {
    session := new Session();
    for i := 0 to |updates|
      invariant fresh(session) && session.Valid() && session.popped == {}
      invariant Values(session.tasks) == Deliver(updates[..i])
    {
      assert updates[..i + 1][..i] == updates[..i];
      session.UpdateTask(updates[i]);
    }
    assert updates[..|updates|] == updates;
  }

  /** Two sessions that get the same updates in any order and with any repetition end with the
      same tasks and the same index. */
  method ReplayBoth(a: seq<Task>, b: seq<Task>) returns (s: Session, t: Session)
    requires OneContent(a) && forall u :: u in a <==> u in b
    ensures s.Valid() && t.Valid() && Values(s.tasks) == Values(t.tasks)
    ensures forall state :: Indexed(s.index, state) == Indexed(t.index, state)
  {
    s := Replay(a);
    t := Replay(b);
    DeliveryConverges(a, b);
    forall state, id ensures id in Indexed(s.index, state) <==> id in Indexed(t.index, state) {
      IndexFollowsTasks(s.tasks, s.index, s.popped, state, id);
      IndexFollowsTasks(t.tasks, t.index, t.popped, state, id);
    }
  }
}
