/** Removing a tree of control groups: a stack loop that lists every directory, and a removal in
    the reverse of that order, with a bounded number of retries. */
module Cgroup {

  type Path = seq<string>

  /** A directory; the entries are its sub-directories in the order a listing returns them. The
      entries of a directory that cannot be read are not seen. */
  datatype Tree = Dir(name: string, pids: seq<int>, readable: bool, entries: seq<Tree>)

  /** A directory where it stands. */
  datatype Node = Node(path: Path, dir: Tree)

  function At(parent: Path, t: Tree): Node { Node(parent + [t.name], t) }

  function Listed(t: Tree): seq<Tree> { if t.readable then t.entries else [] }

  /** No directory has two entries of one name. */
  predicate WellFormed(t: Tree)
  {
    && (forall i :: 0 <= i < |t.entries| ==> WellFormed(t.entries[i]))
    && (forall i, j :: 0 <= i < j < |t.entries| ==> t.entries[i].name != t.entries[j].name)
  }

  // ---- The order of a directory walk -----------------------------------------------------

  function Size(t: Tree): nat { 1 + SizeAll(t.entries) }

  function SizeAll(ts: seq<Tree>): nat { if ts == [] then 0 else SizeAll(ts[..|ts| - 1]) + Size(ts[|ts| - 1]) }

  /** A node, then all below it that can be listed; later siblings first. */
  function Visit(n: Node): seq<Node>
    decreases n.dir, 1
  {
    [n] + if n.dir.readable then VisitAll(n.path, n.dir.entries) else []
  }

  function VisitAll(parent: Path, ts: seq<Tree>): seq<Node>
    decreases ts, 0
  {
    if ts == [] then [] else Visit(At(parent, ts[|ts| - 1])) + VisitAll(parent, ts[..|ts| - 1])
  }

  function VisitStack(stack: seq<Node>): seq<Node>
  {
    if stack == [] then [] else Visit(stack[|stack| - 1]) + VisitStack(stack[..|stack| - 1])
  }

  function StackSize(stack: seq<Node>): nat
  {
    if stack == [] then 0 else Size(stack[|stack| - 1].dir) + StackSize(stack[..|stack| - 1])
  }

  function Nodes(parent: Path, ts: seq<Tree>): seq<Node> { seq(|ts|, i requires 0 <= i < |ts| => At(parent, ts[i])) }

  lemma StackSnoc(stack: seq<Node>, n: Node)
    ensures VisitStack(stack + [n]) == Visit(n) + VisitStack(stack)
    ensures StackSize(stack + [n]) == Size(n.dir) + StackSize(stack)
  {
    assert (stack + [n])[..|stack|] == stack;
  }

  lemma NodesSnoc(parent: Path, ts: seq<Tree>, k: nat)
    requires |ts| == k + 1
    ensures Nodes(parent, ts) == Nodes(parent, ts[..k]) + [At(parent, ts[k])]
  {
  }

  lemma Assoc<T>(a: seq<T>, b: seq<T>, c: seq<T>)
    ensures a + b + c == a + (b + c)
  {
  }

  lemma {:induction false} StackPush(stack: seq<Node>, parent: Path, ts: seq<Tree>)
    ensures VisitStack(stack + Nodes(parent, ts)) == VisitAll(parent, ts) + VisitStack(stack)
  {
    if ts == [] {
      assert stack + Nodes(parent, ts) == stack;
    } else {
      var k := |ts| - 1;
      var last := At(parent, ts[k]);
      StackPush(stack, parent, ts[..k]);
      NodesSnoc(parent, ts, k);
      StackSnoc(stack + Nodes(parent, ts[..k]), last);
      Assoc(stack, Nodes(parent, ts[..k]), [last]);
      Assoc(Visit(last), VisitAll(parent, ts[..k]), VisitStack(stack));
    }
  }

  lemma {:induction false} StackPushSize(stack: seq<Node>, parent: Path, ts: seq<Tree>)
    ensures StackSize(stack + Nodes(parent, ts)) == SizeAll(ts) + StackSize(stack)
  {
    if ts == [] {
      assert stack + Nodes(parent, ts) == stack;
    } else {
      var k := |ts| - 1;
      StackPushSize(stack, parent, ts[..k]);
      NodesSnoc(parent, ts, k);
      StackSnoc(stack + Nodes(parent, ts[..k]), At(parent, ts[k]));
      Assoc(stack, Nodes(parent, ts[..k]), [At(parent, ts[k])]);
    }
  }

  /** The stack loop ends and lists the directories in the order of the recursive walk. */
  method Order(root: Node) returns (order: seq<Node>)
    ensures order == Visit(root)
  {
    var stack := [root];
    order := [];
    assert VisitStack(stack) == Visit(root) + VisitStack([]);
    while stack != []
      invariant order + VisitStack(stack) == Visit(root)
      decreases StackSize(stack)
    {
      var rest, d := stack[..|stack| - 1], stack[|stack| - 1];
      var entries := Listed(d.dir);
      StackPush(rest, d.path, entries);
      StackPushSize(rest, d.path, entries);
      assert Visit(d) == [d] + VisitAll(d.path, entries);
      assert order + VisitStack(stack) == order + [d] + (VisitAll(d.path, entries) + VisitStack(rest));
      stack := rest + Nodes(d.path, entries);
      order := order + [d];
    }
  }

  // ---- Ancestors come first --------------------------------------------------------------

  /** No later directory is, or contains, an earlier one. */
  predicate AncestorsFirst(ns: seq<Node>) { forall i, j :: 0 <= i < j < |ns| ==> !(ns[j].path <= ns[i].path) }

  lemma {:induction false} VisitBelow(r: Node)
    ensures forall n :: n in Visit(r) ==> r.path <= n.path
    decreases r.dir, 1
  {
    if r.dir.readable {
      VisitAllBelow(r.path, r.dir.entries);
    }
  }

  /** Every directory of the walk is under one of the entries. */
  lemma {:induction false} VisitAllBelow(parent: Path, ts: seq<Tree>)
    ensures forall n :: n in VisitAll(parent, ts) ==>
      parent < n.path && exists i :: 0 <= i < |ts| && ts[i].name == n.path[|parent|]
    decreases ts, 0
  {
    if ts != [] {
      var k := |ts| - 1;
      VisitAllBelow(parent, ts[..k]);
      VisitBelow(At(parent, ts[k]));
      forall n | n in VisitAll(parent, ts)
        ensures parent < n.path && exists i :: 0 <= i < |ts| && ts[i].name == n.path[|parent|]
      {
        if n in VisitAll(parent, ts[..k]) {
          var i :| 0 <= i < k && ts[..k][i].name == n.path[|parent|];
          assert ts[i].name == n.path[|parent|];
        } else {
          assert At(parent, ts[k]).path <= n.path;
          assert ts[k].name == n.path[|parent|];
        }
      }
    }
  }

  predicate DistinctNames(ts: seq<Tree>) { forall i, j :: 0 <= i < j < |ts| ==> ts[i].name != ts[j].name }

  lemma AppendFirst(a: seq<Node>, b: seq<Node>)
    requires AncestorsFirst(a) && AncestorsFirst(b)
    requires forall x, y :: x in a && y in b ==> !(y.path <= x.path)
    ensures AncestorsFirst(a + b)
  {
    forall i, j | 0 <= i < j < |a + b| ensures !((a + b)[j].path <= (a + b)[i].path) {
      if i < |a| <= j { assert a[i] in a && b[j - |a|] in b; }
    }
  }

  lemma {:induction false} VisitFirst(r: Node)
    requires WellFormed(r.dir)
    ensures AncestorsFirst(Visit(r))
    decreases r.dir, 1
  {
    if r.dir.readable {
      VisitAllFirst(r.path, r.dir.entries);
      VisitAllBelow(r.path, r.dir.entries);
      AppendFirst([r], VisitAll(r.path, r.dir.entries));
    }
  }

  lemma {:induction false} VisitAllFirst(parent: Path, ts: seq<Tree>)
    requires DistinctNames(ts) && forall i :: 0 <= i < |ts| ==> WellFormed(ts[i])
    ensures AncestorsFirst(VisitAll(parent, ts))
    decreases ts, 0
  {
    if ts != [] {
      var k := |ts| - 1;
      var last, front := At(parent, ts[k]), ts[..k];
      VisitFirst(last);
      VisitAllFirst(parent, front);
      VisitBelow(last);
      VisitAllBelow(parent, front);
      forall x, y | x in Visit(last) && y in VisitAll(parent, front) ensures !(y.path <= x.path) {
        var i :| 0 <= i < |front| && front[i].name == y.path[|parent|];
        assert ts[i].name != ts[k].name;
        assert x.path[|parent|] == last.path[|parent|] == ts[k].name;
      }
      AppendFirst(Visit(last), VisitAll(parent, front));
    }
  }

  // ---- Which directories are visited -----------------------------------------------------

  /** Every directory of the tree, readable or not. */
  function All(n: Node): set<Path>
    decreases n.dir, 1
  {
    {n.path} + AllOf(n.path, n.dir.entries)
  }

  function AllOf(parent: Path, ts: seq<Tree>): set<Path>
    decreases ts, 0
  {
    if ts == [] then {} else All(At(parent, ts[|ts| - 1])) + AllOf(parent, ts[..|ts| - 1])
  }

  function Paths(ns: seq<Node>): set<Path> { set n | n in ns :: n.path }

  predicate IsChild(d: Path, q: Path) { |q| == |d| + 1 && d <= q }

  predicate HasEntry(ts: seq<Tree>, name: string) { exists i :: 0 <= i < |ts| && ts[i].name == name }

  lemma {:induction false} AllBelow(r: Node, q: Path)
    requires q in All(r)
    ensures r.path <= q
    decreases r.dir, 1
  {
    if q != r.path { AllOfBelow(r.path, r.dir.entries, q); }
  }

  lemma {:induction false} AllOfBelow(parent: Path, ts: seq<Tree>, q: Path)
    requires q in AllOf(parent, ts)
    ensures parent < q && HasEntry(ts, q[|parent|])
    decreases ts, 0
  {
    var k := |ts| - 1;
    if q in All(At(parent, ts[k])) {
      AllBelow(At(parent, ts[k]), q);
    } else {
      AllOfBelow(parent, ts[..k], q);
      var i :| 0 <= i < k && ts[..k][i].name == q[|parent|];
      assert ts[i].name == q[|parent|];
    }
  }

  lemma {:induction false} VisitedIsThere(r: Node, q: Path)
    requires q in Paths(Visit(r))
    ensures q in All(r)
    decreases r.dir, 1
  {
    if q != r.path {
      assert q in Paths(VisitAll(r.path, r.dir.entries));
      VisitedOfIsThere(r.path, r.dir.entries, q);
    }
  }

  lemma {:induction false} VisitedOfIsThere(parent: Path, ts: seq<Tree>, q: Path)
    requires q in Paths(VisitAll(parent, ts))
    ensures q in AllOf(parent, ts)
    decreases ts, 0
  {
    var k := |ts| - 1;
    if q in Paths(Visit(At(parent, ts[k]))) {
      VisitedIsThere(At(parent, ts[k]), q);
    } else {
      assert q in Paths(VisitAll(parent, ts[..k]));
      VisitedOfIsThere(parent, ts[..k], q);
    }
  }

  /** The entries themselves. */
  lemma {:induction false} EntryPaths(parent: Path, ts: seq<Tree>, name: string)
    ensures parent + [name] in AllOf(parent, ts) <==> HasEntry(ts, name)
    ensures parent + [name] in Paths(VisitAll(parent, ts)) <==> HasEntry(ts, name)
    decreases ts, 0
  {
    var q := parent + [name];
    if q in Paths(VisitAll(parent, ts)) { VisitedOfIsThere(parent, ts, q); }
    if q in AllOf(parent, ts) { AllOfBelow(parent, ts, q); }
    if ts != [] && HasEntry(ts, name) {
      var k := |ts| - 1;
      var last := At(parent, ts[k]);
      if ts[k].name == name {
        assert last in Visit(last);
        assert last in VisitAll(parent, ts);
      } else {
        var i :| 0 <= i < |ts| && ts[i].name == name;
        assert ts[..k][i].name == name;
        EntryPaths(parent, ts[..k], name);
        var n :| n in VisitAll(parent, ts[..k]) && n.path == q;
        assert n in VisitAll(parent, ts);
      }
    }
  }

  /** The sub-directories of a visited directory: all are in the tree, and they are visited exactly
      when the directory can be read. */
  lemma {:induction false} ChildOf(r: Node, n: Node, q: Path)
    requires WellFormed(r.dir) && n in Visit(r) && IsChild(n.path, q)
    ensures q in All(r) <==> HasEntry(n.dir.entries, q[|n.path|])
    ensures q in Paths(Visit(r)) <==> HasEntry(n.dir.entries, q[|n.path|]) && n.dir.readable
    decreases r.dir, 1
  {
    VisitBelow(r);
    assert q != r.path;
    var below := if r.dir.readable then VisitAll(r.path, r.dir.entries) else [];
    assert q in Paths(Visit(r)) <==> q in Paths(below) by {
      if q in Paths(below) {
        var m :| m in below && m.path == q;
        assert m in Visit(r);
      }
    }
    if n in below {
      ChildOfEntries(r.path, r.dir.entries, n, q);
    } else {
      assert q == r.path + [q[|n.path|]];
      EntryPaths(r.path, r.dir.entries, q[|n.path|]);
    }
  }

  lemma {:induction false} ChildOfEntries(parent: Path, ts: seq<Tree>, n: Node, q: Path)
    requires DistinctNames(ts) && forall i :: 0 <= i < |ts| ==> WellFormed(ts[i])
    requires n in VisitAll(parent, ts) && IsChild(n.path, q)
    ensures q in AllOf(parent, ts) <==> HasEntry(n.dir.entries, q[|n.path|])
    ensures q in Paths(VisitAll(parent, ts)) <==> HasEntry(n.dir.entries, q[|n.path|]) && n.dir.readable
    decreases ts, 0
  {
    var k := |ts| - 1;
    var last, front := At(parent, ts[k]), ts[..k];
    SplitPaths(parent, ts, k, q);
    if n in Visit(last) {
      VisitBelow(last);
      ChildOf(last, n, q);
      NotUnder(parent, ts, k, q);
    } else {
      VisitAllBelow(parent, front);
      ChildOfEntries(parent, front, n, q);
      var i :| 0 <= i < k && front[i].name == n.path[|parent|];
      assert ts[i].name != ts[k].name;
      if q in All(last) { AllBelow(last, q); }
      if q in Paths(Visit(last)) { VisitedIsThere(last, q); }
    }
  }

  lemma SplitPaths(parent: Path, ts: seq<Tree>, k: nat, q: Path)
    requires |ts| == k + 1
    ensures q in Paths(VisitAll(parent, ts)) <==>
      q in Paths(Visit(At(parent, ts[k]))) || q in Paths(VisitAll(parent, ts[..k]))
  {
    var a, b := Visit(At(parent, ts[k])), VisitAll(parent, ts[..k]);
    forall n | n in a || n in b ensures n in VisitAll(parent, ts) { }
  }

  /** What is under the last entry is under no other. */
  lemma NotUnder(parent: Path, ts: seq<Tree>, k: nat, q: Path)
    requires |ts| == k + 1 && DistinctNames(ts) && At(parent, ts[k]).path <= q
    ensures q !in AllOf(parent, ts[..k]) && q !in Paths(VisitAll(parent, ts[..k]))
  {
    assert q[|parent|] == ts[k].name;
    if q in Paths(VisitAll(parent, ts[..k])) { VisitedOfIsThere(parent, ts[..k], q); }
    if q in AllOf(parent, ts[..k]) { AllOfBelow(parent, ts[..k], q); }
  }

  // ---- Removal ---------------------------------------------------------------------------

  predicate HasChild(live: set<Path>, d: Path) { exists q :: q in live && IsChild(d, q) }

  /** What other hands removed before the turns from the last listed directory back to the k-th;
      `vanish(j)` goes just before the turn of the j-th. */
  function GoneBy(vanish: nat -> set<Path>, k: nat, n: nat): set<Path>
    decreases n - k
  {
    if n <= k then {} else GoneBy(vanish, k + 1, n) + vanish(k)
  }

  /** A directory whose sub-directories cannot be seen, with one of them still there. */
  predicate Blocked(n: Node, gone: set<Path>)
  {
    !n.dir.readable && exists i :: 0 <= i < |n.dir.entries| && At(n.path, n.dir.entries[i]).path !in gone
  }

  /** At its turn the directory is gone by other hands, or nothing is left in it. */
  predicate Passes(n: Node, gone: set<Path>) { n.path in gone || !Blocked(n, gone) }

  ghost predicate AllPass(order: seq<Node>, vanish: nat -> set<Path>, from: nat)
  {
    forall k :: from <= k < |order| ==> Passes(order[k], GoneBy(vanish, k, |order|))
  }

  /** Failing attempts that the directories from the k-th on cost while they are busy; one that is
      gone costs none. */
  function BusyFrom(order: seq<Node>, vanish: nat -> set<Path>, busy: Path -> nat, k: nat): nat
    decreases |order| - k
  {
    if k >= |order| then 0
    else
      BusyFrom(order, vanish, busy, k + 1)
      + (if order[k].path in GoneBy(vanish, k, |order|) then 0 else busy(order[k].path))
  }

  lemma {:induction false} BusyMono(order: seq<Node>, vanish: nat -> set<Path>, busy: Path -> nat, k: nat)
    ensures BusyFrom(order, vanish, busy, k) <= BusyFrom(order, vanish, busy, 0)
  {
    if k > 0 { BusyMono(order, vanish, busy, k - 1); }
  }

  /** The directory tree below `root` is as described; what is elsewhere does not matter. */
  ghost predicate OnDisk(root: Node, live: set<Path>)
  {
    forall q :: root.path <= q ==> (q in live <==> q in All(root))
  }

  /** What is left when the turn of the k-th directory comes. */
  function LeftAt(order: seq<Node>, live: set<Path>, vanish: nat -> set<Path>, k: nat): set<Path>
    requires k <= |order|
  {
    live - Paths(order[k..]) - GoneBy(vanish, k, |order|)
  }

  /** When its turn comes, a directory is still there unless other hands removed it, and only
      sub-directories that could not be seen are left in it. */
  ghost predicate InTurn(order: seq<Node>, live: set<Path>, vanish: nat -> set<Path>)
  {
    forall k :: 0 <= k < |order| ==>
      var gone := GoneBy(vanish, k, |order|);
      var left := live - Paths(order[k + 1..]) - gone;
      && (order[k].path in left <==> order[k].path !in gone)
      && (HasChild(left, order[k].path) <==> Blocked(order[k], gone))
  }

  /** A sub-directory that is left could not be seen. */
  lemma LeftChild(root: Node, live: set<Path>, k: nat, gone: set<Path>, q: Path)
    requires WellFormed(root.dir) && OnDisk(root, live) && k < |Visit(root)|
    requires q in live - Paths(Visit(root)[k + 1..]) - gone && IsChild(Visit(root)[k].path, q)
    ensures Blocked(Visit(root)[k], gone)
  {
    var order := Visit(root);
    var n := order[k];
    VisitFirst(root);
    VisitBelow(root);
    assert n in order;
    ChildOf(root, n, q);
    if q in Paths(order) { VisitedLater(order, k, q); }
    var i :| 0 <= i < |n.dir.entries| && n.dir.entries[i].name == q[|n.path|];
    assert q == At(n.path, n.dir.entries[i]).path;
  }

  /** A sub-directory that cannot be seen is left, unless other hands removed it. */
  lemma HiddenChild(root: Node, live: set<Path>, k: nat, gone: set<Path>)
    requires WellFormed(root.dir) && OnDisk(root, live) && k < |Visit(root)| && Blocked(Visit(root)[k], gone)
    ensures HasChild(live - Paths(Visit(root)[k + 1..]) - gone, Visit(root)[k].path)
  {
    var order := Visit(root);
    var n := order[k];
    VisitBelow(root);
    assert n in order;
    var i :| 0 <= i < |n.dir.entries| && At(n.path, n.dir.entries[i]).path !in gone;
    var q := At(n.path, n.dir.entries[i]).path;
    assert HasEntry(n.dir.entries, q[|n.path|]);
    ChildOf(root, n, q);
    PathsSuffix(order, k + 1);
    assert q in live - Paths(order[k + 1..]) - gone && IsChild(n.path, q);
  }

  lemma Turn(root: Node, live: set<Path>, k: nat, gone: set<Path>)
    requires WellFormed(root.dir) && OnDisk(root, live) && k < |Visit(root)|
    ensures var left, n := live - Paths(Visit(root)[k + 1..]) - gone, Visit(root)[k];
      && (n.path in left <==> n.path !in gone)
      && (HasChild(left, n.path) <==> Blocked(n, gone))
  {
    var order := Visit(root);
    var left, n := live - Paths(order[k + 1..]) - gone, order[k];
    VisitFirst(root);
    VisitBelow(root);
    assert n in order && n.path in Paths(order);
    VisitedIsThere(root, n.path);
    ListedOnce(order, k);
    if HasChild(left, n.path) {
      var q :| q in left && IsChild(n.path, q);
      LeftChild(root, live, k, gone, q);
    }
    if Blocked(n, gone) { HiddenChild(root, live, k, gone); }
  }

  lemma ListedOnce(order: seq<Node>, k: nat)
    requires AncestorsFirst(order) && k < |order|
    ensures order[k].path !in Paths(order[k + 1..])
  {
    forall n | n in order[k + 1..] ensures n.path != order[k].path {
      var i :| 0 <= i < |order[k + 1..]| && order[k + 1..][i] == n;
      assert order[k + 1 + i] == n;
    }
  }

  lemma PathsSuffix(ns: seq<Node>, k: nat)
    requires k <= |ns|
    ensures Paths(ns[k..]) <= Paths(ns)
  {
    assert forall n :: n in ns[k..] ==> n in ns;
  }

  lemma VisitedLater(order: seq<Node>, k: nat, q: Path)
    requires AncestorsFirst(order) && k < |order| && q in Paths(order) && IsChild(order[k].path, q)
    ensures q in Paths(order[k + 1..])
  {
    var n :| n in order && n.path == q;
    var i :| 0 <= i < |order| && order[i] == n;
    assert order[k].path <= order[i].path && order[k].path != order[i].path;
    assert i > k;
    assert order[k + 1..][i - k - 1] == n;
  }

  /** Remove a directory, trying again while it is busy; one that is not found counts as removed. An
      attempt that fails when no polls are left ends it. */
  method RemoveDir(present: bool, blocked: bool, busy: nat, polls: nat) returns (ok: bool, rest: nat)
    ensures ok <==> !present || (!blocked && busy <= polls)
    ensures ok ==> rest == polls - (if present then busy else 0)
  {
    rest := polls;
    if !present {
      return true, rest;
    }
    var tries := 0;
    while blocked || tries < busy
      invariant rest + tries == polls
      invariant tries <= busy || blocked
      decreases rest
    {
      if rest == 0 {
        return false, rest;
      }
      rest := rest - 1;
      tries := tries + 1;
    }
    ok := true;
  }

  lemma NextTurn(order: seq<Node>, live: set<Path>, vanish: nat -> set<Path>, k: nat)
    requires k < |order|
    ensures LeftAt(order, live, vanish, k + 1) - vanish(k) == live - Paths(order[k + 1..]) - GoneBy(vanish, k, |order|)
    ensures LeftAt(order, live, vanish, k + 1) - vanish(k) - {order[k].path} == LeftAt(order, live, vanish, k)
  {
    assert order[k..] == [order[k]] + order[k + 1..];
    PathsCons(order[k], order[k + 1..]);
  }

  method RemoveInOrder(order: seq<Node>, live: set<Path>, vanish: nat -> set<Path>, busy: Path -> nat, polls: nat)
    returns (ok: bool, left: set<Path>, kept: nat)
    requires InTurn(order, live, vanish)
    ensures ok <==> AllPass(order, vanish, 0) && BusyFrom(order, vanish, busy, 0) <= polls
    ensures kept <= |order| && (ok ==> kept == 0 && left == LeftAt(order, live, vanish, 0))
    ensures !ok ==> kept > 0 && left == LeftAt(order, live, vanish, kept) - vanish(kept - 1)
  {
    left, kept := live, |order|;
    var rest: nat := polls;
    while kept > 0
      invariant kept <= |order| && left == LeftAt(order, live, vanish, kept)
      invariant rest + BusyFrom(order, vanish, busy, kept) == polls
      invariant AllPass(order, vanish, kept)
    {
      var d := order[kept - 1].path;
      NextTurn(order, live, vanish, kept - 1);
      BusyMono(order, vanish, busy, kept - 1);
      left := left - vanish(kept - 1);
      var done, after := RemoveDir(d in left, HasChild(left, d), busy(d), rest);
      if !done {
        assert !AllPass(order, vanish, 0) || BusyFrom(order, vanish, busy, kept - 1) > polls;
        return false, left, kept;
      }
      left, rest, kept := left - {d}, after, kept - 1;
    }
    ok := true;
  }

  /** Every listed directory goes, deepest first, exactly when at its turn each is gone by other hands
      or hides nothing, and the attempts that find one busy are no more than the deadline allows. On
      a failure exactly the directories listed first are still there, apart from what other hands
      removed. */
  method RemoveTree(root: Node, live: set<Path>, vanish: nat -> set<Path>, busy: Path -> nat, polls: nat)
    returns (ok: bool, left: set<Path>, kept: nat)
    requires WellFormed(root.dir) && OnDisk(root, live)
    ensures ok <==> AllPass(Visit(root), vanish, 0) && BusyFrom(Visit(root), vanish, busy, 0) <= polls
    ensures kept <= |Visit(root)| && (ok ==> kept == 0 && left == LeftAt(Visit(root), live, vanish, 0))
    ensures ok && NothingHidden(root) ==> left == live - All(root) - GoneBy(vanish, 0, |Visit(root)|)
    ensures !ok ==> kept > 0 && left == LeftAt(Visit(root), live, vanish, kept) - vanish(kept - 1)
  {
    var order := Order(root);
    forall k | 0 <= k < |order|
      ensures var gone := GoneBy(vanish, k, |order|);
        var left := live - Paths(order[k + 1..]) - gone;
        && (order[k].path in left <==> order[k].path !in gone)
        && (HasChild(left, order[k].path) <==> Blocked(order[k], gone))
    {
      Turn(root, live, k, GoneBy(vanish, k, |order|));
    }
    ok, left, kept := RemoveInOrder(order, live, vanish, busy, polls);
    assert order[0..] == order;
    if NothingHidden(root) { SeenAll(root); }
  }

  /** A directory whose sub-directories cannot be seen. */
  predicate Stuck(n: Node) { !n.dir.readable && n.dir.entries != [] }

  predicate NothingHidden(root: Node) { forall n :: n in Visit(root) ==> !Stuck(n) }

  /** With no other hands, every directory passes exactly when nothing is hidden. */
  lemma Undisturbed(root: Node, vanish: nat -> set<Path>)
    requires forall j :: vanish(j) == {}
    ensures AllPass(Visit(root), vanish, 0) <==> NothingHidden(root)
  {
    var order := Visit(root);
    forall k | 0 <= k < |order| ensures Passes(order[k], GoneBy(vanish, k, |order|)) <==> !Stuck(order[k]) {
      NothingGone(vanish, k, |order|);
      if Stuck(order[k]) { assert At(order[k].path, order[k].dir.entries[0]).path !in GoneBy(vanish, k, |order|); }
    }
    if AllPass(order, vanish, 0) {
      forall n | n in order ensures !Stuck(n) {
        var k :| 0 <= k < |order| && order[k] == n;
        assert Passes(order[k], GoneBy(vanish, k, |order|));
      }
    }
  }

  lemma {:induction false} NothingGone(vanish: nat -> set<Path>, k: nat, n: nat)
    requires forall j :: vanish(j) == {}
    ensures GoneBy(vanish, k, n) == {}
    decreases n - k
  {
    if k < n { NothingGone(vanish, k + 1, n); }
  }

  lemma PathsCons(n: Node, ns: seq<Node>)
    ensures Paths([n] + ns) == {n.path} + Paths(ns)
  {
    assert n in [n] + ns;
    forall p | p in Paths(ns) ensures p in Paths([n] + ns) {
      var m :| m in ns && m.path == p;
      assert m in [n] + ns;
    }
  }

  /** With nothing hidden the walk visits every directory of the tree. */
  lemma {:induction false} SeenAll(r: Node)
    requires NothingHidden(r)
    ensures Paths(Visit(r)) == All(r)
    decreases r.dir, 1
  {
    assert r in Visit(r);
    if r.dir.readable {
      forall n | n in VisitAll(r.path, r.dir.entries) ensures !Stuck(n) { assert n in Visit(r); }
      SeenAllOf(r.path, r.dir.entries);
      PathsCons(r, VisitAll(r.path, r.dir.entries));
    } else {
      PathsCons(r, []);
    }
  }

  lemma {:induction false} SeenAllOf(parent: Path, ts: seq<Tree>)
    requires forall n :: n in VisitAll(parent, ts) ==> !Stuck(n)
    ensures Paths(VisitAll(parent, ts)) == AllOf(parent, ts)
    decreases ts, 0
  {
    if ts != [] {
      var k := |ts| - 1;
      var last := At(parent, ts[k]);
      forall n | n in Visit(last) || n in VisitAll(parent, ts[..k]) ensures !Stuck(n) {
        assert n in VisitAll(parent, ts);
      }
      SeenAll(last);
      SeenAllOf(parent, ts[..k]);
      forall q ensures q in Paths(VisitAll(parent, ts)) <==> q in All(last) || q in AllOf(parent, ts[..k]) {
        SplitPaths(parent, ts, k, q);
      }
    }
  }

  // ---- The processes of the tree ---------------------------------------------------------

  /** The recursive walk: a node, then its entries in listing order. */
  function Forward(n: Node): seq<Node>
    decreases n.dir, 1
  {
    [n] + if n.dir.readable then ForwardAll(n.path, n.dir.entries) else []
  }

  function ForwardAll(parent: Path, ts: seq<Tree>): seq<Node>
    decreases ts, 0
  {
    if ts == [] then [] else ForwardAll(parent, ts[..|ts| - 1]) + Forward(At(parent, ts[|ts| - 1]))
  }

  function Pids(ns: seq<Node>): seq<int>
  {
    if ns == [] then [] else Pids(ns[..|ns| - 1]) + ns[|ns| - 1].dir.pids
  }

  /** Every process of the listed directories, and no other. */
  lemma {:induction false} PidsMean(ns: seq<Node>, p: int)
    ensures p in Pids(ns) <==> exists i :: 0 <= i < |ns| && p in ns[i].dir.pids
  {
    if ns != [] {
      var n := |ns| - 1;
      PidsMean(ns[..n], p);
      assert forall i :: 0 <= i < n ==> ns[..n][i] == ns[i];
      assert p in ns[n].dir.pids ==> p in Pids(ns);
    }
  }

  lemma PidsSnoc(ns: seq<Node>, n: Node)
    ensures Pids(ns + [n]) == Pids(ns) + n.dir.pids
  {
    assert (ns + [n])[..|ns|] == ns;
  }

  lemma {:induction false} PidsConcat(a: seq<Node>, b: seq<Node>)
    ensures Pids(a + b) == Pids(a) + Pids(b)
  {
    if b == [] {
      assert a + b == a;
    } else {
      var front, last := b[..|b| - 1], b[|b| - 1];
      assert b == front + [last];
      PidsConcat(a, front);
      PidsSnoc(front, last);
      PidsSnoc(a + front, last);
      assert a + b == a + front + [last];
      Assoc(Pids(a), Pids(front), last.dir.pids);
    }
  }

  lemma PidsOne(n: Node)
    ensures Pids([n]) == n.dir.pids
  {
    assert [n][..0] == [];
  }

  lemma PidsNode(n: Node)
    requires n.dir.readable
    ensures Pids(Forward(n)) == n.dir.pids + Pids(ForwardAll(n.path, n.dir.entries))
  {
    PidsOne(n);
    PidsConcat([n], ForwardAll(n.path, n.dir.entries));
  }

  lemma PidsStep(parent: Path, ts: seq<Tree>, i: nat)
    requires i < |ts|
    ensures Pids(ForwardAll(parent, ts[..i + 1])) ==
      Pids(ForwardAll(parent, ts[..i])) + Pids(Forward(At(parent, ts[i])))
  {
    assert ts[..i + 1][..i] == ts[..i];
    PidsConcat(ForwardAll(parent, ts[..i]), Forward(At(parent, ts[i])));
  }

  /** Collect the processes of a directory and of all below it. */
  method CollectPids(n: Node, pids: seq<int>) returns (all: seq<int>)
    ensures all == pids + Pids(Forward(n))
    decreases n.dir
  {
    all := pids + n.dir.pids;
    if !n.dir.readable {
      assert Forward(n) == [n];
      PidsOne(n);
      return;
    }
    var ts := n.dir.entries;
    ghost var base := all;
    for i := 0 to |ts|
      invariant all == base + Pids(ForwardAll(n.path, ts[..i]))
    {
      PidsStep(n.path, ts, i);
      Assoc(base, Pids(ForwardAll(n.path, ts[..i])), Pids(Forward(At(n.path, ts[i]))));
      all := CollectPids(At(n.path, ts[i]), all);
    }
    assert ts[..|ts|] == ts;
    Assoc(pids, n.dir.pids, Pids(ForwardAll(n.path, ts)));
    PidsNode(n);
  }

  /** The two walks visit the same directories, each equally often. */
  lemma {:induction false} SameDirectories(n: Node)
    ensures multiset(Forward(n)) == multiset(Visit(n))
    decreases n.dir, 1
  {
    if n.dir.readable { SameEntries(n.path, n.dir.entries); }
  }

  lemma {:induction false} SameEntries(parent: Path, ts: seq<Tree>)
    ensures multiset(ForwardAll(parent, ts)) == multiset(VisitAll(parent, ts))
    decreases ts, 0
  {
    if ts != [] {
      SameEntries(parent, ts[..|ts| - 1]);
      SameDirectories(At(parent, ts[|ts| - 1]));
    }
  }
}
