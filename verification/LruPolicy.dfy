/** The least-recently-used eviction policy: a doubly linked list kept as key pointers inside a
    map, and the plain recency sequence it stands for. */
module LruPolicy {
  import opened Wrappers
  import opened Sequences

  type Key = string

  datatype Node = Node(size: nat, prev: Option<Key>, next: Option<Key>)

  /** Counters are 64-bit atomics that wrap around. */
  const WORD: nat := 0x1_0000_0000_0000_0000

  function WrapAdd(a: nat, b: nat): nat { (a + b) % WORD }
  function WrapSub(a: nat, b: nat): nat
    requires b < WORD
  {
    (a + WORD - b) % WORD
  }

  // ---- The recency sequence --------------------------------------------------------------

  lemma WithoutFacts(order: seq<Key>, key: Key)
    requires NoDup(order)
    ensures NoDup(Without(order, key))
    ensures forall k :: k in Without(order, key) <==> k in order && k != key
    ensures |Without(order, key)| == if key in order then |order| - 1 else |order|
  {
    WithoutNoDup(order, key);
    WithoutMembers(order, key);
    WithoutLength(order, key);
  }

  function SizeOf(nodes: map<Key, Node>, key: Key): nat { if key in nodes then nodes[key].size else 0 }

  /** Bytes of the listed keys. */
  function Total(nodes: map<Key, Node>, order: seq<Key>): nat
  {
    if order == [] then 0 else SizeOf(nodes, order[0]) + Total(nodes, order[1..])
  }

  lemma {:induction false} TotalConcat(nodes: map<Key, Node>, a: seq<Key>, b: seq<Key>)
    ensures Total(nodes, a + b) == Total(nodes, a) + Total(nodes, b)
  {
    if a == [] {
      assert a + b == b;
    } else {
      assert (a + b)[1..] == a[1..] + b;
      TotalConcat(nodes, a[1..], b);
    }
  }

  lemma {:induction false} TotalFrame(m: map<Key, Node>, n: map<Key, Node>, order: seq<Key>)
    requires forall k :: k in order ==> SizeOf(m, k) == SizeOf(n, k)
    ensures Total(m, order) == Total(n, order)
  {
    if order != [] { TotalFrame(m, n, order[1..]); }
  }

  lemma TotalWithout(nodes: map<Key, Node>, order: seq<Key>, key: Key)
    requires NoDup(order) && key in order
    ensures Total(nodes, Without(order, key)) + SizeOf(nodes, key) == Total(nodes, order)
  {
    var i :| 0 <= i < |order| && order[i] == key;
    WithoutAt(order, i);
    assert order == order[..i] + [key] + order[i + 1..];
    TotalConcat(nodes, order[..i], order[i + 1..]);
    TotalConcat(nodes, order[..i] + [key], order[i + 1..]);
    TotalConcat(nodes, order[..i], [key]);
    assert Total(nodes, [key]) == SizeOf(nodes, key);
  }

  // ---- The linked list -------------------------------------------------------------------

  function Before(order: seq<Key>, i: nat): Option<Key>
    requires i <= |order|
  {
    if i == 0 then None else Some(order[i - 1])
  }

  function At(order: seq<Key>, i: nat): Option<Key> { if i < |order| then Some(order[i]) else None }

  predicate LinkedAt(nodes: map<Key, Node>, order: seq<Key>, i: nat)
    requires i < |order|
  {
    order[i] in nodes && nodes[order[i]].prev == Before(order, i) && nodes[order[i]].next == At(order, i + 1)
  }

  /** The pointers, head and tail encode `order`. */
  predicate Chain(nodes: map<Key, Node>, head: Option<Key>, tail: Option<Key>, order: seq<Key>)
  {
    && NoDup(order)
    && (forall i :: 0 <= i < |order| ==> LinkedAt(nodes, order, i))
    && head == At(order, 0)
    && tail == Before(order, |order|)
  }

  function Sizes(nodes: map<Key, Node>): map<Key, nat> { map k | k in nodes :: nodes[k].size }

  /** A sequence and the sizes of its keys have one representation only. */
  lemma ChainIsUnique(m: map<Key, Node>, n: map<Key, Node>, order: seq<Key>,
                      head: Option<Key>, tail: Option<Key>, head': Option<Key>, tail': Option<Key>)
    requires Chain(m, head, tail, order) && Chain(n, head', tail', order)
    requires (forall k :: k in m <==> k in order) && (forall k :: k in n <==> k in order)
    requires Sizes(m) == Sizes(n)
    ensures m == n && head == head' && tail == tail'
  {
    forall k | k in m ensures m[k] == n[k] {
      var i :| 0 <= i < |order| && order[i] == k;
      assert LinkedAt(m, order, i) && LinkedAt(n, order, i);
      assert Sizes(m)[k] == Sizes(n)[k];
    }
  }

  /** Listed keys are in the map. */
  lemma ListedInMap(nodes: map<Key, Node>, order: seq<Key>, key: Key)
    requires key in order && forall i :: 0 <= i < |order| ==> LinkedAt(nodes, order, i)
    ensures key in nodes
  {
    var i :| 0 <= i < |order| && order[i] == key;
    assert LinkedAt(nodes, order, i);
  }

  /** `now` is `was` with the neighbours of `key` linked to each other. */
  predicate Unlinked(was: map<Key, Node>, now: map<Key, Node>, key: Key)
    requires key in was
  {
    && now.Keys == was.Keys
    && (forall k :: k in was && k != key ==>
        && now[k].size == was[k].size
        && now[k].prev == (if was[key].next == Some(k) then was[key].prev else was[k].prev)
        && now[k].next == (if was[key].prev == Some(k) then was[key].next else was[k].next))
  }

  lemma UnlinkedChain(was: map<Key, Node>, now: map<Key, Node>, order: seq<Key>, i: nat)
    requires NoDup(order) && i < |order| && forall j :: 0 <= j < |order| ==> LinkedAt(was, order, j)
    requires order[i] in was && Unlinked(was, now, order[i])
    ensures var rest := order[..i] + order[i + 1..]; forall j :: 0 <= j < |rest| ==> LinkedAt(now, rest, j)
  {
    var rest := order[..i] + order[i + 1..];
    NoDupIsDistinct(order);
    assert LinkedAt(was, order, i);
    forall j | 0 <= j < |rest| ensures LinkedAt(now, rest, j) {
      var from := if j < i then j else j + 1;
      assert rest[j] == order[from] && LinkedAt(was, order, from);
    }
  }

  lemma UnlinkedEnds(order: seq<Key>, i: nat)
    requires i < |order|
    ensures var rest := order[..i] + order[i + 1..];
      && At(rest, 0) == (if i == 0 then At(order, 1) else At(order, 0))
      && Before(rest, |rest|) == (if i == |order| - 1 then Before(order, i) else Before(order, |order|))
  {
  }

  /** Unlink a listed key; its node stays in the map with cleared pointers. The three locked
      cells are passed in and handed back. */
  method RemoveFromList(nodes: map<Key, Node>, head: Option<Key>, tail: Option<Key>, key: Key, ghost order: seq<Key>)
    returns (nodes': map<Key, Node>, head': Option<Key>, tail': Option<Key>)
    requires Chain(nodes, head, tail, order) && (key in nodes ==> key in order)
    ensures Chain(nodes', head', tail', Without(order, key))
    ensures nodes'.Keys == nodes.Keys && forall k :: k in nodes ==> nodes'[k].size == nodes[k].size
  {
    nodes', head', tail' := nodes, head, tail;
    if key in nodes {
      ghost var i :| 0 <= i < |order| && order[i] == key;
      assert LinkedAt(nodes, order, i);
      var node := nodes[key];
      if node.prev.Some? {
        assert LinkedAt(nodes, order, i - 1);
        if node.prev.value in nodes' {
          nodes' := nodes'[node.prev.value := nodes'[node.prev.value].(next := node.next)];
        }
      } else {
        head' := node.next;
      }
      if node.next.Some? {
        assert LinkedAt(nodes, order, i + 1);
        if node.next.value in nodes' {
          nodes' := nodes'[node.next.value := nodes'[node.next.value].(prev := node.prev)];
        }
      } else {
        tail' := node.prev;
      }
      if key in nodes' {
        nodes' := nodes'[key := nodes'[key].(prev := None, next := None)];
      }
      assert Unlinked(nodes, nodes', key);
      UnlinkedChain(nodes, nodes', order, i);
      UnlinkedEnds(order, i);
      WithoutAt(order, i);
      WithoutFacts(order, key);
    } else {
      if key in order { ListedInMap(nodes, order, key); }
      WithoutAbsent(order, key);
    }
  }

  /** Link an unlisted node behind the most recently used one. */
  method AddToTail(nodes: map<Key, Node>, head: Option<Key>, tail: Option<Key>, key: Key, ghost order: seq<Key>)
    returns (nodes': map<Key, Node>, head': Option<Key>, tail': Option<Key>)
    requires Chain(nodes, head, tail, order) && key !in order
    ensures Chain(nodes', head', tail', if key in nodes then order + [key] else order)
    ensures nodes'.Keys == nodes.Keys && forall k :: k in nodes ==> nodes'[k].size == nodes[k].size
  {
    nodes', head', tail' := nodes, head, tail;
    if key in nodes {
      nodes' := nodes'[key := nodes'[key].(prev := tail, next := None)];
      if tail.Some? {
        assert LinkedAt(nodes, order, |order| - 1);
        if tail.value in nodes' {
          nodes' := nodes'[tail.value := nodes'[tail.value].(next := Some(key))];
        }
      }
      tail' := Some(key);
      if head.None? {
        head' := Some(key);
      }
      NoDupAppend(order, key);
      ghost var longer := order + [key];
      forall j | 0 <= j < |longer| ensures LinkedAt(nodes', longer, j) {
        if j < |order| { assert LinkedAt(nodes, order, j); }
      }
    }
  }

  /** A node that is not listed can be replaced or dropped. */
  lemma ChainIgnores(nodes: map<Key, Node>, nodes': map<Key, Node>, head: Option<Key>, tail: Option<Key>,
                     order: seq<Key>)
    requires Chain(nodes, head, tail, order)
    requires forall k :: k in order && k in nodes ==> k in nodes' && nodes'[k] == nodes[k]
    ensures Chain(nodes', head, tail, order)
  {
    forall i | 0 <= i < |order| ensures LinkedAt(nodes', order, i) {
      assert LinkedAt(nodes, order, i);
    }
  }

  // ---- What each callback does to the sequence -------------------------------------------

  function Touched(order: seq<Key>, key: Key): seq<Key>
  {
    if key in order then Without(order, key) + [key] else order
  }

  function Added(order: seq<Key>, key: Key): seq<Key> { Without(order, key) + [key] }

  lemma AddedFacts(order: seq<Key>, key: Key)
    requires NoDup(order)
    ensures NoDup(Added(order, key))
    ensures forall k :: k in Added(order, key) <==> k in order || k == key
    ensures |Added(order, key)| == if key in order then |order| else |order| + 1
  {
    WithoutFacts(order, key);
    NoDupAppend(Without(order, key), key);
  }

  /** `n` gives `key` the size `size` and every other listed key the size it has in `m`: the
      bytes of the sequence with `key` added last. */
  lemma AddedTotal(m: map<Key, Node>, n: map<Key, Node>, order: seq<Key>, key: Key)
    requires NoDup(order) && forall k :: k in order && k != key ==> SizeOf(m, k) == SizeOf(n, k)
    ensures Total(n, Added(order, key)) == Total(m, Without(order, key)) + SizeOf(n, key)
  {
    WithoutFacts(order, key);
    TotalConcat(n, Without(order, key), [key]);
    assert Total(n, [key]) == SizeOf(n, key);
    TotalFrame(m, n, Without(order, key));
  }

  lemma WrapSubTotal(total: nat, size: nat)
    requires size <= total && size < WORD
    ensures WrapSub(total % WORD, size) == (total - size) % WORD
  {
    var q, r := total / WORD, total % WORD;
    assert total - size == (q - 1) * WORD + (r + WORD - size);
  }

  lemma WrapAddTotal(total: nat, size: nat)
    ensures WrapAdd(total % WORD, size) == (total + size) % WORD
  {
    var q, r := total / WORD, total % WORD;
    assert total + size == q * WORD + (r + size);
  }

  /** The cells encode `order`. */
  ghost predicate Represents(nodes: map<Key, Node>, head: Option<Key>, tail: Option<Key>, order: seq<Key>)
  {
    && Chain(nodes, head, tail, order)
    && (forall k :: k in nodes <==> k in order)
    && (forall k :: k in nodes ==> nodes[k].size < WORD)
  }

  /** The counters are the number of keys and their bytes, modulo the word size. */
  ghost predicate Counted(nodes: map<Key, Node>, order: seq<Key>, memory: nat, count: nat)
  {
    memory == Total(nodes, order) % WORD && count == |order| % WORD
  }

  predicate SameSizes(m: map<Key, Node>, n: map<Key, Node>)
  {
    m.Keys == n.Keys && forall k :: k in m ==> m[k].size == n[k].size
  }

  /** on_access on the locked cells. */
  method Access(nodes: map<Key, Node>, head: Option<Key>, tail: Option<Key>, key: Key, ghost order: seq<Key>)
    returns (n: map<Key, Node>, h: Option<Key>, t: Option<Key>)
    requires Represents(nodes, head, tail, order)
    ensures Represents(n, h, t, Touched(order, key)) && SameSizes(nodes, n)
    ensures Total(n, Touched(order, key)) == Total(nodes, order) && |Touched(order, key)| == |order|
  {
    n, h, t := nodes, head, tail;
    if key in nodes {
      WithoutFacts(order, key);
      n, h, t := RemoveFromList(n, h, t, key, order);
      n, h, t := AddToTail(n, h, t, key, Without(order, key));
      AddedFacts(order, key);
      AddedTotal(nodes, n, order, key);
      TotalWithout(nodes, order, key);
    }
  }

  /** The list part of on_evict. */
  method Drop(nodes: map<Key, Node>, head: Option<Key>, tail: Option<Key>, key: Key, ghost order: seq<Key>)
    returns (n: map<Key, Node>, h: Option<Key>, t: Option<Key>)
    requires Represents(nodes, head, tail, order) && key in nodes
    ensures Represents(n, h, t, Without(order, key)) && SameSizes(nodes - {key}, n)
  {
    WithoutFacts(order, key);
    n, h, t := RemoveFromList(nodes, head, tail, key, order);
    ChainIgnores(n, n - {key}, h, t, Without(order, key));
    n := n - {key};
  }

  /** The list part of on_add: take the key out if it is listed, put a new node at the end. */
  method Append(nodes: map<Key, Node>, head: Option<Key>, tail: Option<Key>, key: Key, size: nat, ghost order: seq<Key>)
    returns (n: map<Key, Node>, h: Option<Key>, t: Option<Key>)
    requires Represents(nodes, head, tail, order) && size < WORD
    ensures Represents(n, h, t, Added(order, key)) && SameSizes(nodes[key := Node(size, None, None)], n)
  {
    n, h, t := nodes, head, tail;
    WithoutFacts(order, key);
    if key in nodes {
      n, h, t := RemoveFromList(n, h, t, key, order);
    } else {
      WithoutAbsent(order, key);
    }
    ghost var before := n;
    n := n[key := Node(size, None, None)];
    ChainIgnores(before, n, h, t, Without(order, key));
    n, h, t := AddToTail(n, h, t, key, Without(order, key));
    AddedFacts(order, key);
  }

  lemma EvictCounted(nodes: map<Key, Node>, n: map<Key, Node>, order: seq<Key>, key: Key, memory: nat, count: nat)
    requires NoDup(order) && key in order && SizeOf(nodes, key) < WORD && Counted(nodes, order, memory, count)
    requires forall k :: k in order && k != key ==> SizeOf(nodes, k) == SizeOf(n, k)
    ensures Counted(n, Without(order, key), WrapSub(memory, SizeOf(nodes, key)), WrapSub(count, 1))
  {
    WithoutFacts(order, key);
    TotalWithout(nodes, order, key);
    TotalFrame(nodes, n, Without(order, key));
    WrapSubTotal(Total(nodes, order), SizeOf(nodes, key));
    WrapSubTotal(|order|, 1);
  }

  /** Counters of the sequence without the key, then with it at the end. */
  lemma AddCounted(nodes: map<Key, Node>, n: map<Key, Node>, order: seq<Key>, key: Key, memory: nat, count: nat)
    requires NoDup(order) && Counted(nodes, Without(order, key), memory, count)
    requires forall k :: k in order && k != key ==> SizeOf(nodes, k) == SizeOf(n, k)
    ensures Counted(n, Added(order, key), WrapAdd(memory, SizeOf(n, key)), WrapAdd(count, 1))
  {
    AddedTotal(nodes, n, order, key);
    WrapAddTotal(Total(nodes, Without(order, key)), SizeOf(n, key));
    WrapAddTotal(|Without(order, key)|, 1);
    assert |Added(order, key)| == |Without(order, key)| + 1;
  }

  /** The sequence and the sizes determine the whole state. */
  lemma SameState(m: map<Key, Node>, n: map<Key, Node>, order: seq<Key>, hm: Option<Key>, tm: Option<Key>,
                  hn: Option<Key>, tn: Option<Key>, mm: nat, cm: nat, mn: nat, cn: nat)
    requires Represents(m, hm, tm, order) && Counted(m, order, mm, cm)
    requires Represents(n, hn, tn, order) && Counted(n, order, mn, cn)
    requires SameSizes(m, n)
    ensures m == n && hm == hn && tm == tn && mm == mn && cm == cn
  {
    ChainIsUnique(m, n, order, hm, tm, hn, tn);
  }

  /** on_evict on the locked cells and the counters. */
  method Evict(nodes: map<Key, Node>, head: Option<Key>, tail: Option<Key>, memory: nat, count: nat, key: Key,
               ghost order: seq<Key>)
    returns (n: map<Key, Node>, h: Option<Key>, t: Option<Key>, m: nat, c: nat)
    requires Represents(nodes, head, tail, order) && Counted(nodes, order, memory, count)
    ensures Represents(n, h, t, Without(order, key)) && Counted(n, Without(order, key), m, c)
    ensures SameSizes(nodes - {key}, n)
  {
    n, h, t, m, c := nodes, head, tail, memory, count;
    if key in nodes {
      var size := nodes[key].size;
      n, h, t := Drop(n, h, t, key, order);
      EvictCounted(nodes, n, order, key, memory, count);
      m, c := WrapSub(m, size), WrapSub(c, 1);
    } else {
      WithoutAbsent(order, key);
    }
  }

  /** on_add on the locked cells and the counters. */
  method Add(nodes: map<Key, Node>, head: Option<Key>, tail: Option<Key>, memory: nat, count: nat, key: Key, size: nat,
             ghost order: seq<Key>)
    returns (n: map<Key, Node>, h: Option<Key>, t: Option<Key>, m: nat, c: nat)
    requires Represents(nodes, head, tail, order) && Counted(nodes, order, memory, count) && size < WORD
    ensures Represents(n, h, t, Added(order, key)) && Counted(n, Added(order, key), m, c)
    ensures SameSizes(nodes[key := Node(size, None, None)], n)
  {
    m, c := memory, count;
    if key in nodes {
      var oldSize := nodes[key].size;
      EvictCounted(nodes, nodes, order, key, memory, count);
      m, c := WrapSub(m, oldSize), WrapSub(c, 1);
    } else {
      WithoutAbsent(order, key);
    }
    n, h, t := Append(nodes, head, tail, key, size, order);
    AddCounted(nodes, n, order, key, m, c);
    m, c := WrapAdd(m, size), WrapAdd(c, 1);
  }

  function Min(a: nat, b: nat): nat { if a < b then a else b }

  class LRUPolicy {
    const maxMemory: nat
    const maxObjects: Option<nat>
    var nodes: map<Key, Node>
    var head: Option<Key>
    var tail: Option<Key>
    var currentMemory: nat
    var currentCount: nat
    /** The tracked keys, least recently used first. */
    ghost var order: seq<Key>

    ghost predicate Valid()
      reads this
    {
      Represents(nodes, head, tail, order) && Counted(nodes, order, currentMemory, currentCount)
    }

    constructor (maxMemory: nat, maxObjects: Option<nat>)
      ensures Valid() && order == [] && nodes == map[]
      ensures this.maxMemory == maxMemory && this.maxObjects == maxObjects
    {
      this.maxMemory, this.maxObjects := maxMemory, maxObjects;
      nodes, head, tail := map[], None, None;
      currentMemory, currentCount := 0, 0;
      order := [];
    }

    predicate ShouldEvict()
      reads this
    {
      currentMemory > maxMemory || (maxObjects.Some? && currentCount > maxObjects.value)
    }

    /** A recorded access moves a tracked key to the recent end. */
    method OnAccess(key: Key)
      requires Valid()
      modifies this`nodes, this`head, this`tail, this`order
      ensures Valid() && order == Touched(old(order), key) && SameSizes(old(nodes), nodes)
    {
      nodes, head, tail := Access(nodes, head, tail, key, order);
      order := Touched(order, key);
    }

    /** Eviction forgets the key and its bytes. */
    method OnEvict(key: Key)
      requires Valid()
      modifies this
      ensures Valid() && order == Without(old(order), key) && SameSizes(old(nodes) - {key}, nodes)
    {
      nodes, head, tail, currentMemory, currentCount := Evict(nodes, head, tail, currentMemory, currentCount, key,
                                                              order);
      order := Without(order, key);
    }

    method OnRemove(key: Key)
      requires Valid()
      modifies this
      ensures Valid() && order == Without(old(order), key) && SameSizes(old(nodes) - {key}, nodes)
    {
      OnEvict(key);
    }

    /** Adding, or adding again with another size, makes the key the most recent one. */
    method OnAdd(key: Key, size: nat)
      requires Valid() && size < WORD
      modifies this
      ensures Valid() && order == Added(old(order), key)
      ensures SameSizes(old(nodes)[key := Node(size, None, None)], nodes)
    {
      nodes, head, tail, currentMemory, currentCount := Add(nodes, head, tail, currentMemory, currentCount, key, size,
                                                            order);
      order := Added(order, key);
    }

    /** The default update: remove, then add. It says what OnAdd says, so by SameState it leaves
        the state that OnAdd alone leaves. */
    method OnUpdate(key: Key, size: nat)
      requires Valid() && size < WORD
      modifies this
      ensures Valid() && order == Added(old(order), key)
      ensures SameSizes(old(nodes)[key := Node(size, None, None)], nodes)
    {
      WithoutFacts(order, key);
      WithoutAbsent(Without(order, key), key);
      OnRemove(key);
      OnAdd(key, size);
    }

    /** Nothing within limits, otherwise the oldest keys, oldest first. */
    method Victims(count: nat) returns (keys: seq<Key>)
      requires Valid()
      ensures keys == if ShouldEvict() then order[..Min(count, |order|)] else []
    {
      keys := [];
      if !ShouldEvict() {
        return;
      }
      var current := head;
      while |keys| < count && current.Some?
        invariant |keys| <= count && |keys| <= |order|
        invariant keys == order[..|keys|] && current == At(order, |keys|)
        decreases count - |keys|
      {
        assert LinkedAt(nodes, order, |keys|);
        keys := keys + [current.value];
        current := if current.value in nodes then nodes[current.value].next else None;
      }
    }
  }

  /** A policy over its limits tracks something. */
  lemma OverLimitIsListed(nodes: map<Key, Node>, order: seq<Key>, memory: nat, count: nat)
    requires Counted(nodes, order, memory, count) && (memory > 0 || count > 0)
    ensures order != []
  {
  }

  /** On two policies in the same state, an update leaves exactly what an add alone leaves. */
  method UpdateAndAdd(p: LRUPolicy, q: LRUPolicy, key: Key, size: nat)
    requires p != q && p.Valid() && q.Valid() && size < WORD
    requires p.nodes == q.nodes && p.order == q.order
    modifies p, q
    ensures p.nodes == q.nodes && p.head == q.head && p.tail == q.tail
    ensures p.currentMemory == q.currentMemory && p.currentCount == q.currentCount
  {
    p.OnUpdate(key, size);
    q.OnAdd(key, size);
    assert SameSizes(p.nodes, q.nodes);
    SameState(p.nodes, q.nodes, p.order, p.head, p.tail, q.head, q.tail,
              p.currentMemory, p.currentCount, q.currentMemory, q.currentCount);
  }
}
