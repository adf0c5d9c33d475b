/** What every run of the local memory manager keeps, and what reclaiming achieves. */
module MemoryProofs {
  import opened QCDefs
  import opened MemorySpec

  /** The handle map is injective. */
  ghost predicate RegistryOk(registry: map<MemoryHandle, nat>) {
    forall g, h :: g in registry && h in registry && registry[g] == registry[h] ==> g == h
  }

  /** Every pool handle of node i names a memory handle that is registered to node i, and no node has too many. */
  ghost predicate PoolsOk(pools: seq<set<PoolHandle>>, registry: map<MemoryHandle, nat>) {
    && (forall i :: 0 <= i < |pools| ==> |pools[i]| <= MAX_POOLS_PER_NODE)
    && (forall i, ph :: 0 <= i < |pools| && ph in pools[i] ==> ph.memory in registry && registry[ph.memory] == i)
  }

  /** Some handle stands for node i. */
  ghost predicate Registered(registry: map<MemoryHandle, nat>, i: int) {
    exists h :: h in registry && registry[h] == i
  }

  /** Only registered nodes hold buffers. */
  ghost predicate HoldersOk(allocations: seq<set<Buffer>>, registry: map<MemoryHandle, nat>) {
    forall i :: 0 <= i < |allocations| && allocations[i] != {} ==> Registered(registry, i)
  }

  /** The live buffers are the disjoint union of the allocation sets. */
  ghost predicate Partition(allocations: seq<set<Buffer>>, live: set<Buffer>) {
    && (forall i :: 0 <= i < |allocations| ==> allocations[i] <= live)
    && (forall b <- live :: exists i :: 0 <= i < |allocations| && b in allocations[i])
    && (forall i, j :: 0 <= i < j < |allocations| ==> allocations[i] !! allocations[j])
  }

  /** Every buffer handed out is live or was freed, as often as it was handed out. */
  ghost predicate Ledger(m: Manager) {
    multiset(m.handedOut) == multiset(m.freed) + multiset(m.live)
  }

  ghost predicate Inv(m: Manager) {
    && Shape(m) && RegistryOk(m.registry) && PoolsOk(m.pools, m.registry)
    && HoldersOk(m.allocations, m.registry) && Partition(m.allocations, m.live) && Ledger(m)
    && m.state in {Initial, Ready, Error, DeInitializing}
    && (m.state == Initial ==> m.numOfNodes == 0)
  }

  // ---- single calls ----

  /** Adding a handle for a node id that has none. */
  lemma InsertKeeps(m: Manager, h: MemoryHandle, id: nat)
    requires Inv(m) && h !in m.registry && id < m.numOfNodes && !Registered(m.registry, id)
    ensures Inv(m.(registry := m.registry[h := id]))
  {
    var r := m.registry[h := id];
    forall i | 0 <= i < m.numOfNodes && m.allocations[i] != {} ensures Registered(r, i) {
      var g :| g in m.registry && m.registry[g] == i;
      assert r[g] == i;
    }
  }

  lemma RegisterKeeps(m: Manager, node: NodeId, handle: MemoryHandle, random: UInt32)
    requires Inv(m)
    ensures Inv(Register(m, node, handle, random).m)
  {
    var o := Register(m, node, handle, random);
    if o.status == Ok {
      assert node.id !in m.registry.Values;
      InsertKeeps(m, NewHandle(m, node, handle, random), node.id);
    }
  }

  /** Replacing one pool map by one that still belongs to the node. */
  lemma SetPoolsKeeps(pools: seq<set<PoolHandle>>, registry: map<MemoryHandle, nat>, i: nat, s: set<PoolHandle>)
    requires PoolsOk(pools, registry) && i < |pools|
    requires |s| <= MAX_POOLS_PER_NODE
    requires forall ph <- s :: ph.memory in registry && registry[ph.memory] == i
    ensures PoolsOk(pools[i := s], registry)
  {
  }

  lemma CreatePoolKeeps(m: Manager, handle: MemoryHandle, allocator: nat, random: UInt32, init: Status)
    requires Inv(m)
    ensures Inv(CreatePool(m, handle, allocator, random, init).m)
  {
    var o := CreatePool(m, handle, allocator, random, init);
    if m.state == Ready && handle in m.registry && allocator < ALLOCATOR_LAST {
      var i := m.registry[handle];
      if |m.pools[i]| != MAX_POOLS_PER_NODE {
        var ph := PoolHandle(m.counters[i], random, handle);
        assert |m.pools[i] + {ph}| <= |m.pools[i]| + 1;
        SetPoolsKeeps(m.pools, m.registry, i, m.pools[i] + {ph});
      }
    }
  }

  lemma DestroyPoolKeeps(m: Manager, ph: PoolHandle)
    requires Inv(m)
    ensures Inv(DestroyPool(m, ph).m)
  {
    if DestroyPool(m, ph).status == Ok {
      var i := m.registry[ph.memory];
      assert |m.pools[i] - {ph}| <= |m.pools[i]|;
      SetPoolsKeeps(m.pools, m.registry, i, m.pools[i] - {ph});
    }
  }

  /** Moving a buffer the allocators did not have out before into node i's set. */
  lemma TakePartition(allocations: seq<set<Buffer>>, live: set<Buffer>, i: nat, buff: Buffer)
    requires Partition(allocations, live) && i < |allocations| && buff !in live
    ensures Partition(allocations[i := allocations[i] + {buff}], live + {buff})
  {
    var a := allocations[i := allocations[i] + {buff}];
    forall b | b in live + {buff} ensures exists j :: 0 <= j < |a| && b in a[j] {
      if b == buff {
        assert b in a[i];
      } else {
        var j :| 0 <= j < |allocations| && b in allocations[j];
        assert b in a[j];
      }
    }
  }

  lemma AllocateBufferKeeps(m: Manager, handle: MemoryHandle, allocator: nat, size: nat, answer: Status, buff: Buffer)
    requires Inv(m)
    requires answer == Ok ==> buff !in m.live
    ensures Inv(AllocateBuffer(m, handle, allocator, size, answer, buff).m)
  {
    var o := AllocateBuffer(m, handle, allocator, size, answer, buff);
    if o.status == Ok {
      TakePartition(m.allocations, m.live, m.registry[handle], buff);
      assert multiset(m.live + {buff}) == multiset(m.live) + multiset{buff};
      assert Ledger(o.m);
      forall j | 0 <= j < |o.m.allocations| && o.m.allocations[j] != {} ensures Registered(m.registry, j) {
        assert j == m.registry[handle] || m.allocations[j] != {};
      }
    }
  }

  lemma Snoc<T>(order: seq<T>)
    requires order != [] && Distinct(order)
    ensures var init, x := order[..|order| - 1], order[|order| - 1];
      order == init + [x] && Distinct(init) && x !in init && Elems(order) == Elems(init) + {x}
  {
    var init, x := order[..|order| - 1], order[|order| - 1];
    assert order == init + [x];
    assert forall y :: y in order <==> y in init || y == x;
  }

  /** The manager after node i gave back the buffers d. */
  function GiveBack(m: Manager, i: nat, d: seq<Buffer>): Manager
    requires i < |m.allocations|
  {
    m.(allocations := m.allocations[i := m.allocations[i] - Elems(d)], live := m.live - Elems(d), freed := m.freed + d)
  }

  lemma GiveBackOne(m: Manager, i: nat, d: seq<Buffer>, b: Buffer)
    requires i < |m.allocations|
    ensures GiveBack(GiveBack(m, i, d), i, [b]) == GiveBack(m, i, d + [b])
  {
    assert Elems(d + [b]) == Elems(d) + {b};
    assert Elems([b]) == {b};
    assert m.allocations[i] - Elems(d + [b]) == m.allocations[i] - Elems(d) - {b};
    assert m.live - Elems(d + [b]) == m.live - Elems(d) - {b};
    assert m.freed + d + [b] == m.freed + (d + [b]);
  }

  lemma GiveBackPartition(allocations: seq<set<Buffer>>, live: set<Buffer>, i: nat, b: Buffer)
    requires Partition(allocations, live) && i < |allocations| && b in allocations[i]
    ensures Partition(allocations[i := allocations[i] - {b}], live - {b})
  {
    var a := allocations[i := allocations[i] - {b}];
    forall c | c in live - {b} ensures exists j :: 0 <= j < |a| && c in a[j] {
      var j :| 0 <= j < |allocations| && c in allocations[j];
      assert c in a[j];
    }
    forall j | 0 <= j < |a| ensures a[j] <= live - {b} {
      assert j != i ==> allocations[j] !! allocations[i];
    }
  }

  lemma GiveBackKeeps(m: Manager, i: nat, b: Buffer)
    requires Inv(m) && i < m.numOfNodes && b in m.allocations[i]
    ensures Inv(GiveBack(m, i, [b]))
  {
    assert Elems([b]) == {b};
    GiveBackPartition(m.allocations, m.live, i, b);
    assert multiset(m.live) == multiset(m.live - {b}) + multiset{b};
    var n := GiveBack(m, i, [b]);
    assert Ledger(n);
    forall j | 0 <= j < |n.allocations| && n.allocations[j] != {} ensures Registered(m.registry, j) {
      assert m.allocations[j] != {};
    }
  }

  /** A call to FreeBuffer gives back the buffer, halts the manager or changes nothing. */
  lemma FreeBufferIs(m: Manager, handle: MemoryHandle, buff: Buffer, answer: Status)
    requires Shape(m)
    ensures var o := FreeBuffer(m, handle, buff, answer);
      && (o.status == Ok ==>
        m.state == Ready && handle in m.registry && buff in m.allocations[m.registry[handle]]
        && o.m == GiveBack(m, m.registry[handle], [buff]))
      && (o.status != Ok ==> o.m == m || (m.state == Ready && o.m == m.(state := Error)))
  {
    assert Elems([buff]) == {buff};
  }

  lemma FreeBufferKeeps(m: Manager, handle: MemoryHandle, buff: Buffer, answer: Status)
    requires Inv(m)
    ensures Inv(FreeBuffer(m, handle, buff, answer).m)
  {
    FreeBufferIs(m, handle, buff, answer);
    if FreeBuffer(m, handle, buff, answer).status == Ok {
      GiveBackKeeps(m, m.registry[handle], buff);
    }
  }

  // ---- reclaiming ----

  predicate Freeable(b: Buffer, frees: Frees) {
    b.allocator < ALLOCATOR_LAST && frees(b) == Ok
  }

  predicate AllFreeable(order: seq<Buffer>, frees: Frees) {
    forall b <- order :: Freeable(b, frees)
  }

  /** A Free that answers Fail puts the manager in the Error state, where all later calls are refused. */
  predicate Halted(order: seq<Buffer>, frees: Frees) {
    exists b <- order :: b.allocator < ALLOCATOR_LAST && frees(b) == Fail
  }

  /** The buffers a walk gives back, in order. */
  function Done(order: seq<Buffer>, frees: Frees): (d: seq<Buffer>)
    ensures forall b <- d :: b in order
    ensures AllFreeable(order, frees) ==> d == order
  {
    if order == [] then []
    else
      var init, b := order[..|order| - 1], order[|order| - 1];
      var d := Done(init, frees);
      assert forall c <- init :: c in order;
      if Freeable(b, frees) && !Halted(init, frees) then d + [b] else d
  }

  /** One turn of the first loop, after the buffers d were given back. */
  lemma FreeStep(p: Progress, h: MemoryHandle, d: seq<Buffer>, b: Buffer, answer: Status, r: Progress)
    requires Shape(p.m) && h in p.m.registry && b in p.m.allocations[p.m.registry[h]] && b !in d
    requires r.m == GiveBack(p.m, p.m.registry[h], d).(state := r.m.state) && r.m.state in {Ready, Error}
    ensures var n, i := Note(r, FreeBuffer(r.m, h, b, answer)), p.m.registry[h];
      var ok := r.m.state == Ready && b.allocator < ALLOCATOR_LAST && answer == Ok;
      && n.m == GiveBack(p.m, i, if ok then d + [b] else d).(state := n.m.state)
      && (n.m.state == Ready <==> r.m.state == Ready && !(b.allocator < ALLOCATOR_LAST && answer == Fail))
      && n.m.state in {Ready, Error}
      && (ok ==> n.status == r.status && n.finalState == r.finalState)
      && (!ok ==> n.status != Ok && n.finalState == Error)
  {
    FreeBufferIs(r.m, h, b, answer);
    GiveBackOne(p.m, p.m.registry[h], d, b);
  }

  lemma {:induction false} FreeAllIs(p: Progress, h: MemoryHandle, order: seq<Buffer>, frees: Frees)
    requires Shape(p.m) && p.m.state == Ready && p.status == Ok && h in p.m.registry
    requires Elems(order) <= p.m.allocations[p.m.registry[h]] && Distinct(order)
    ensures var r := FreeAll(p, h, order, frees);
      && r.m == GiveBack(p.m, p.m.registry[h], Done(order, frees)).(
                  state := if Halted(order, frees) then Error else Ready)
      && (r.status == Ok <==> AllFreeable(order, frees))
      && r.finalState == if r.status == Ok then p.finalState else Error
  {
    var i := p.m.registry[h];
    if order == [] {
      assert Elems<Buffer>([]) == {};
      assert p.m.allocations[i] - {} == p.m.allocations[i];
      assert p.m.live - {} == p.m.live && p.m.freed + [] == p.m.freed;
      assert p.m.allocations[i := p.m.allocations[i]] == p.m.allocations;
    } else {
      var init, b := order[..|order| - 1], order[|order| - 1];
      Snoc(order);
      FreeAllIs(p, h, init, frees);
      FreeStep(p, h, Done(init, frees), b, frees(b), FreeAll(p, h, init, frees));
      HaltedSnoc(init, b, frees);
    }
  }

  lemma HaltedSnoc(init: seq<Buffer>, b: Buffer, frees: Frees)
    ensures Halted(init + [b], frees) <==> Halted(init, frees) || (b.allocator < ALLOCATOR_LAST && frees(b) == Fail)
    ensures AllFreeable(init + [b], frees) <==> AllFreeable(init, frees) && Freeable(b, frees)
    ensures AllFreeable(init, frees) ==> !Halted(init, frees)
  {
    assert forall y :: y in init + [b] <==> y in init || y == b;
    assert b in init + [b];
  }

  lemma {:induction false} FreeAllKeeps(p: Progress, h: MemoryHandle, order: seq<Buffer>, frees: Frees)
    requires Inv(p.m)
    ensures Inv(FreeAll(p, h, order, frees).m)
  {
    if order != [] {
      var init, b := order[..|order| - 1], order[|order| - 1];
      FreeAllKeeps(p, h, init, frees);
      FreeBufferKeeps(FreeAll(p, h, init, frees).m, h, b, frees(b));
    }
  }

  /** The manager after node i lost the pools d. */
  function DropPools(m: Manager, i: nat, d: set<PoolHandle>): Manager
    requires i < |m.pools|
  {
    m.(pools := m.pools[i := m.pools[i] - d])
  }

  /** In the Ready state every pool of the copy is destroyed: each names, in its own handle, the node it is
      walked for, so DestroyPool looks it up in the map it was copied from. Otherwise none is. */
  lemma {:induction false} DestroyAllIs(p: Progress, i: nat, order: seq<PoolHandle>)
    requires Shape(p.m) && i < p.m.numOfNodes && PoolsOk(p.m.pools, p.m.registry)
    requires p.m.state in {Ready, Error}
    requires Elems(order) <= p.m.pools[i] && Distinct(order)
    ensures var r := DestroyAll(p, order);
      r == if p.m.state == Ready then p.(m := DropPools(p.m, i, Elems(order)))
           else if order == [] then p
           else Progress(p.m, BadState, Error)
  {
    if order == [] {
      assert Elems<PoolHandle>([]) == {};
      assert p.m.pools[i] - {} == p.m.pools[i];
      assert p.m.pools[i := p.m.pools[i]] == p.m.pools;
    } else {
      var init, ph := order[..|order| - 1], order[|order| - 1];
      Snoc(order);
      DestroyAllIs(p, i, init);
      if p.m.state == Ready {
        assert ph in p.m.pools[i];
        assert p.m.pools[i] - Elems(init) - {ph} == p.m.pools[i] - Elems(order);
      }
    }
  }

  lemma {:induction false} DestroyAllKeeps(p: Progress, order: seq<PoolHandle>)
    requires Inv(p.m)
    ensures Inv(DestroyAll(p, order).m)
  {
    if order != [] {
      var init := order[..|order| - 1];
      DestroyAllKeeps(p, init);
      DestroyPoolKeeps(DestroyAll(p, init).m, order[|order| - 1]);
    }
  }

  /** Reclaiming overrides the state and restores it, so it keeps the invariant in every state. */
  lemma ReclaimKeeps(m: Manager, r: Round, frees: Frees)
    requires Inv(m)
    ensures Inv(ReclaimResources(m, r, frees).m)
  {
    if r.handle in m.registry {
      var p := Progress(m.(state := Ready), Ok, m.state);
      FreeAllKeeps(p, r.handle, r.bufs, frees);
      DestroyAllKeeps(FreeAll(p, r.handle, r.bufs, frees), r.pools);
      ReclaimFinalState(m, r, frees);
    }
  }

  lemma {:induction false} FinalStateOfFrees(p: Progress, h: MemoryHandle, order: seq<Buffer>, frees: Frees)
    requires Shape(p.m)
    ensures FreeAll(p, h, order, frees).finalState in {p.finalState, Error}
  {
    if order != [] {
      FinalStateOfFrees(p, h, order[..|order| - 1], frees);
    }
  }

  lemma {:induction false} FinalStateOfPools(p: Progress, order: seq<PoolHandle>)
    requires Shape(p.m)
    ensures DestroyAll(p, order).finalState in {p.finalState, Error}
  {
    if order != [] {
      FinalStateOfPools(p, order[..|order| - 1]);
    }
  }

  lemma ReclaimFinalState(m: Manager, r: Round, frees: Frees)
    requires Shape(m)
    ensures ReclaimResources(m, r, frees).m.state in {m.state, Error}
  {
    if r.handle in m.registry {
      var p := Progress(m.(state := Ready), Ok, m.state);
      FinalStateOfFrees(p, r.handle, r.bufs, frees);
      FinalStateOfPools(FreeAll(p, r.handle, r.bufs, frees), r.pools);
    }
  }

  lemma FreeableIs(order: seq<Buffer>, s: set<Buffer>, frees: Frees)
    requires Elems(order) == s
    ensures AllFreeable(order, frees) <==> forall b <- s :: Freeable(b, frees)
    ensures AllFreeable(order, frees) ==> !Halted(order, frees)
  {
    assert forall b :: b in order <==> b in s;
  }

  /** Exactly what a reclaim of a registered handle does, for every answer of the allocators and every order.

      It succeeds iff the allocators accept every buffer of the node. Then both the node's set and its pool
      map are empty, each buffer was freed once, and the state is the one before the call. If not, the state
      is Error; the buffers up to the first Fail answer are given back where accepted, and the pools go
      unless there was such an answer. Nothing else of the manager changes in any case. */
  lemma ReclaimIs(m: Manager, r: Round, frees: Frees)
    requires Inv(m) && RoundOf(m, r) && r.handle in m.registry
    ensures var i, o, d := m.registry[r.handle], ReclaimResources(m, r, frees), Done(r.bufs, frees);
      && (o.status == Ok <==> forall b <- m.allocations[i] :: Freeable(b, frees))
      && (o.status == Ok ==>
        && d == r.bufs
        && o.m == DropPools(GiveBack(m, i, r.bufs), i, m.pools[i])
        && o.m.allocations[i] == {} && o.m.pools[i] == {})
      && (o.status != Ok ==>
        o.m == DropPools(GiveBack(m, i, d), i, if Halted(r.bufs, frees) then {} else m.pools[i]).(state := Error))
  {
    hide FreeAll, DestroyAll, Done, Halted, AllFreeable, Freeable, Distinct;
    var i := m.registry[r.handle];
    var p := Progress(m.(state := Ready), Ok, m.state);
    FreeAllIs(p, r.handle, r.bufs, frees);
    var q := FreeAll(p, r.handle, r.bufs, frees);
    DestroyAllIs(q, i, r.pools);
    assert Elems(r.bufs) == m.allocations[i];
    assert Elems(r.pools) == m.pools[i];
    FreeableIs(r.bufs, m.allocations[i], frees);
    assert m.pools[i] - {} == m.pools[i];
    assert m.pools[i := m.pools[i]] == m.pools;
  }

  // ---- registration ----

  /** An injective map into the numbers below n that misses one of them has fewer than n entries. */
  lemma {:induction false} Pigeonhole(registry: map<MemoryHandle, nat>, n: nat)
    requires RegistryOk(registry) && forall h <- registry :: registry[h] < n
    ensures |registry| <= n
  {
    if n > 0 {
      if h :| h in registry && registry[h] == n - 1 {
        Pigeonhole(registry - {h}, n - 1);
        assert registry.Keys == (registry - {h}).Keys + {h};
      } else {
        Pigeonhole(registry, n - 1);
      }
    } else if h :| h in registry {
      assert false;
    }
  }

  predicate ValidType(node: NodeId) {
    node.nodeType < NODE_TYPE_LAST && node.nodeType != NODE_TYPE_RESERVED
  }

  /** When a Register succeeds. The test of the registry's size decides nothing: with the ids distinct and
      below numOfNodes, a free id means the registry is not full. The 8-bit node count never wraps. */
  lemma RegisterIs(m: Manager, node: NodeId, handle: MemoryHandle, random: UInt32)
    requires Inv(m) && m.state == Ready
    ensures var o, h := Register(m, node, handle, random), NewHandle(m, node, handle, random);
      && (o.status == Ok <==>
        ValidType(node) && node.id < m.numOfNodes && !Registered(m.registry, node.id) && h !in m.registry)
      && (o.status == Ok ==> h.nodeCount == |m.registry| + 1 && o.m == m.(registry := m.registry[h := node.id]))
      && (o.status == Fail <==> o.m != m && o.m.state == Error)
  {
    var h := NewHandle(m, node, handle, random);
    assert Registered(m.registry, node.id) <==> node.id in m.registry.Values;
    if node.id < m.numOfNodes && !Registered(m.registry, node.id) && h !in m.registry {
      Pigeonhole(m.registry[h := node.id], m.numOfNodes);
    }
    Pigeonhole(m.registry, m.numOfNodes);
  }

  /** Dropping a handle whose node holds nothing. */
  lemma EraseKeeps(m: Manager, h: MemoryHandle)
    requires Inv(m) && h in m.registry
    requires m.allocations[m.registry[h]] == {} && m.pools[m.registry[h]] == {}
    ensures Inv(m.(registry := m.registry - {h}))
  {
    var r := m.registry - {h};
    forall i | 0 <= i < |m.allocations| && m.allocations[i] != {} ensures Registered(r, i) {
      var g :| g in m.registry && m.registry[g] == i;
      assert g in r && r[g] == i;
    }
  }

  lemma UnRegisterKeeps(m: Manager, r: Round, frees: Frees)
    requires Inv(m) && RoundOf(m, r)
    ensures Inv(UnRegister(m, r, frees).m)
  {
    if m.state == Ready && r.handle in m.registry {
      ReclaimKeeps(m, r, frees);
      ReclaimIs(m, r, frees);
      var o := ReclaimResources(m, r, frees);
      if o.status == Ok {
        EraseKeeps(o.m, r.handle);
      }
    }
  }

  /** A successful UnRegister gives the node id back: only the handle and what its node held are gone, and the
      next Register of that id is refused only if its random handle collides. */
  lemma UnRegisterFreesId(m: Manager, r: Round, frees: Frees, node: NodeId, handle: MemoryHandle, random: UInt32)
    requires Inv(m) && RoundOf(m, r)
    requires UnRegister(m, r, frees).status == Ok
    requires ValidType(node) && node.id == m.registry[r.handle]
    ensures var i, o := m.registry[r.handle], UnRegister(m, r, frees);
      && o.m == DropPools(GiveBack(m, i, r.bufs), i, m.pools[i]).(registry := m.registry - {r.handle})
      && o.m.allocations[i] == {} && o.m.pools[i] == {} && !Registered(o.m.registry, i)
      && (Register(o.m, node, handle, random).status == Ok <==> NewHandle(o.m, node, handle, random) !in o.m.registry)
  {
    ReclaimIs(m, r, frees);
    UnRegisterKeeps(m, r, frees);
    RegisterIs(UnRegister(m, r, frees).m, node, handle, random);
  }

  // ---- the end of a life ----

  ghost predicate NodeFreeable(s: set<Buffer>, frees: Frees) {
    forall b <- s :: Freeable(b, frees)
  }

  ghost predicate NodesFreeable(m: Manager, handles: set<MemoryHandle>, frees: Frees)
    requires Shape(m) && handles <= m.registry.Keys
  {
    forall h <- handles :: NodeFreeable(m.allocations[m.registry[h]], frees)
  }

  ghost predicate Emptied(before: Manager, after: Manager, handles: set<MemoryHandle>)
    requires Shape(before) && Shape(after) && after.registry == before.registry && after.numOfNodes == before.numOfNodes
  {
    forall h <- before.registry :: after.allocations[before.registry[h]] ==
      if h in handles then {} else before.allocations[before.registry[h]]
  }

  /** What the DeInitialize loop has achieved after visiting some handles: it is successful iff the allocators
      accepted everything those nodes held, and then these nodes are empty and the others untouched. */
  ghost predicate Visited(p: Progress, r: Progress, handles: set<MemoryHandle>, frees: Frees)
    requires Shape(p.m) && handles <= p.m.registry.Keys
  {
    && Inv(r.m) && r.m.registry == p.m.registry && r.m.numOfNodes == p.m.numOfNodes
    && r.m.state in {DeInitializing, Error} && r.m.handedOut == p.m.handedOut
    && r.finalState == (if r.status == Ok then p.finalState else Error)
    && (r.status == Ok <==> NodesFreeable(p.m, handles, frees))
    && (r.status == Ok ==> Emptied(p.m, r.m, handles))
  }

  lemma HandlesSnoc(init: seq<Round>, r: Round)
    ensures Handles(init + [r]) == Handles(init) + {r.handle}
  {
    var rounds := init + [r];
    assert rounds[|init|].handle in Handles(rounds);
    forall h | h in Handles(init) ensures h in Handles(rounds) {
      var k :| 0 <= k < |init| && init[k].handle == h;
      assert rounds[k].handle == h;
    }
  }

  lemma NoneVisited(p: Progress, frees: Frees)
    requires Inv(p.m) && p.m.state == DeInitializing && p.status == Ok
    ensures Visited(p, p, {}, frees)
  {
  }

  lemma {:induction false} ReclaimAllIs(p: Progress, rounds: seq<Round>, frees: Frees)
    requires Inv(p.m) && p.m.state == DeInitializing && p.status == Ok
    requires Handles(rounds) <= p.m.registry.Keys && RoundsOf(p, rounds, frees)
    ensures Visited(p, ReclaimAll(p, rounds, frees), Handles(rounds), frees)
  {
    hide Inv, Visited, MemorySpec.ReclaimResources, RoundOf;
    NoneVisited(p, frees);
    assert Handles([]) == {};
    if rounds != [] {
      var init, r := rounds[..|rounds| - 1], rounds[|rounds| - 1];
      assert rounds == init + [r];
      HandlesSnoc(init, r);
      ReclaimAllIs(p, init, frees);
      VisitOne(p, ReclaimAll(p, init, frees), Handles(init), r, frees);
    }
  }

  lemma ReclaimSummary(m: Manager, r: Round, frees: Frees)
    requires Inv(m) && RoundOf(m, r) && r.handle in m.registry
    ensures var i, o := m.registry[r.handle], ReclaimResources(m, r, frees);
      && Inv(o.m)
      && (o.status == Ok <==> NodeFreeable(m.allocations[i], frees))
      && (o.status == Ok ==> o.m.allocations == m.allocations[i := {}])
      && o.m.state == (if o.status == Ok then m.state else Error)
      && o.m.registry == m.registry && o.m.numOfNodes == m.numOfNodes && o.m.handedOut == m.handedOut
  {
    ReclaimKeeps(m, r, frees);
    ReclaimIs(m, r, frees);
  }

  lemma VisitOne(p: Progress, q: Progress, handles: set<MemoryHandle>, r: Round, frees: Frees)
    requires Inv(p.m) && p.status == Ok
    requires handles <= p.m.registry.Keys && r.handle in p.m.registry && r.handle !in handles
    requires Visited(p, q, handles, frees) && RoundOf(q.m, r)
    ensures Visited(p, Note(q, ReclaimResources(q.m, r, frees)), handles + {r.handle}, frees)
  {
    ReclaimSummary(q.m, r, frees);
    NodesSnoc(p.m, handles, r.handle, frees);
    if q.status == Ok && ReclaimResources(q.m, r, frees).status == Ok {
      EmptiedOne(p.m, q.m, ReclaimResources(q.m, r, frees).m, handles, r.handle);
    }
  }

  lemma NodesSnoc(m: Manager, handles: set<MemoryHandle>, h: MemoryHandle, frees: Frees)
    requires Shape(m) && handles <= m.registry.Keys && h in m.registry
    ensures NodesFreeable(m, handles + {h}, frees) <==>
      NodesFreeable(m, handles, frees) && NodeFreeable(m.allocations[m.registry[h]], frees)
  {
  }

  lemma EmptiedOne(before: Manager, mid: Manager, after: Manager, handles: set<MemoryHandle>, h: MemoryHandle)
    requires Shape(before) && Shape(mid) && Shape(after) && RegistryOk(before.registry) && h in before.registry
    requires after.registry == mid.registry == before.registry
    requires after.numOfNodes == mid.numOfNodes == before.numOfNodes
    requires Emptied(before, mid, handles)
    requires after.allocations == mid.allocations[before.registry[h] := {}]
    ensures Emptied(before, after, handles + {h})
  {
  }

  /** All registered nodes together hold the live buffers. */
  lemma LiveIsHeld(m: Manager, frees: Frees)
    requires Inv(m)
    ensures NodesFreeable(m, m.registry.Keys, frees) <==> NodeFreeable(m.live, frees)
    ensures (forall h <- m.registry :: m.allocations[m.registry[h]] == {}) ==> m.live == {}
  {
    forall b | b in m.live ensures exists h :: h in m.registry && b in m.allocations[m.registry[h]] {
      var i :| 0 <= i < |m.allocations| && b in m.allocations[i];
      var h :| h in m.registry && m.registry[h] == i;
      assert b in m.allocations[m.registry[h]];
    }
    forall h, b | h in m.registry && b in m.allocations[m.registry[h]] ensures b in m.live {
      assert m.allocations[m.registry[h]] <= m.live;
    }
  }

  /** DeInitialize succeeds iff the allocators accept every live buffer, and then none is left: every buffer the
      allocators ever handed out was freed exactly as often. Otherwise it ends in the Error state. */
  lemma DeInitializeIs(m: Manager, rounds: seq<Round>, frees: Frees)
    requires Inv(m) && m.state != Initial
    requires Handles(rounds) == m.registry.Keys
    requires RoundsOf(Progress(m.(state := DeInitializing), Ok, Initial), rounds, frees)
    ensures var o := DeInitialize(m, rounds, frees);
      && (o.status == Ok <==> NodeFreeable(m.live, frees))
      && (o.status == Ok ==> o.m.live == {} && multiset(o.m.freed) == multiset(m.handedOut) && o.m.state == Initial)
      && (o.status != Ok ==> o.m.state == Error)
  {
    var p := Progress(m.(state := DeInitializing), Ok, Initial);
    ReclaimAllIs(p, rounds, frees);
    var r := ReclaimAll(p, rounds, frees);
    LiveIsHeld(p.m, frees);
    LiveIsHeld(r.m, frees);
    if r.status == Ok {
      assert multiset(r.m.live) == multiset{};
    }
  }

  // ---- whole runs ----

  /** One call of the manager other than DeInitialize, with the answers its environment gives. */
  datatype Op =
    | OpInitialize(numOfNodes: UInt8)
    | OpRegister(node: NodeId, given: MemoryHandle, random: UInt32)
    | OpUnRegister(round: Round, frees: Frees)
    | OpCreatePool(handle: MemoryHandle, allocator: nat, random: UInt32, init: Status)
    | OpDestroyPool(pool: PoolHandle)
    | OpUsePool(pool: PoolHandle, answer: Status)
    | OpAllocate(handle: MemoryHandle, allocator: nat, size: nat, answer: Status, buff: Buffer)
    | OpFree(handle: MemoryHandle, buff: Buffer, answer: Status)
    | OpReclaim(round: Round, frees: Frees)

  function Apply(m: Manager, op: Op): Outcome
    requires Shape(m)
  {
    match op
    case OpInitialize(n) => Initialize(m, n)
    case OpRegister(node, given, random) => Register(m, node, given, random)
    case OpUnRegister(round, frees) => UnRegister(m, round, frees)
    case OpCreatePool(h, a, random, init) => CreatePool(m, h, a, random, init)
    case OpDestroyPool(ph) => DestroyPool(m, ph)
    case OpUsePool(ph, answer) => UsePool(m, ph, answer)
    case OpAllocate(h, a, size, answer, buff) => AllocateBuffer(m, h, a, size, answer, buff)
    case OpFree(h, buff, answer) => FreeBuffer(m, h, buff, answer)
    case OpReclaim(round, frees) => ReclaimResources(m, round, frees)
  }

  /** What the environment owes: an allocated buffer is not one that is still out, and the copies the reclaim
      loops walk are copies of what the node holds. */
  ghost predicate Legal(m: Manager, op: Op)
    requires Shape(m)
  {
    match op
    case OpUnRegister(round, _) => RoundOf(m, round)
    case OpReclaim(round, _) => RoundOf(m, round)
    case OpAllocate(_, _, _, answer, buff) => answer == Ok ==> buff !in m.live
    case _ => true
  }

  lemma ApplyKeeps(m: Manager, op: Op)
    requires Inv(m) && Legal(m, op)
    ensures Inv(Apply(m, op).m)
  {
    match op
    case OpInitialize(n) =>
    case OpRegister(node, given, random) => RegisterKeeps(m, node, given, random);
    case OpUnRegister(round, frees) => UnRegisterKeeps(m, round, frees);
    case OpCreatePool(h, a, random, init) => CreatePoolKeeps(m, h, a, random, init);
    case OpDestroyPool(ph) => DestroyPoolKeeps(m, ph);
    case OpUsePool(ph, answer) =>
    case OpAllocate(h, a, size, answer, buff) => AllocateBufferKeeps(m, h, a, size, answer, buff);
    case OpFree(h, buff, answer) => FreeBufferKeeps(m, h, buff, answer);
    case OpReclaim(round, frees) => ReclaimKeeps(m, round, frees);
  }

  /** m is reached from a new manager by the calls ops, none of which is DeInitialize. */
  ghost predicate Reaches(ops: seq<Op>, m: Manager) {
    if ops == [] then m == FRESH
    else exists k: Manager ::
      Reaches(ops[..|ops| - 1], k) && Shape(k) && Legal(k, ops[|ops| - 1]) && m == Apply(k, ops[|ops| - 1]).m
  }

  /** Every reachable state of one life satisfies the invariant. */
  lemma {:induction false} Safety(ops: seq<Op>, m: Manager)
    requires Reaches(ops, m)
    ensures Inv(m)
  {
    if ops != [] {
      var k: Manager :| Reaches(ops[..|ops| - 1], k) && Shape(k) && Legal(k, ops[|ops| - 1])
        && m == Apply(k, ops[|ops| - 1]).m;
      Safety(ops[..|ops| - 1], k);
      ApplyKeeps(k, ops[|ops| - 1]);
    }
  }

  /** At every moment of a life the buffers out are exactly those in the allocation sets, each in one set of a
      registered node; so a DeInitialize leaves no buffer out iff it returns OK, which it does iff the allocators
      accept every buffer still out, whatever the life was. */
  lemma NoLeak(ops: seq<Op>, m: Manager, rounds: seq<Round>, frees: Frees)
    requires Reaches(ops, m)
    requires m.state != Initial && Handles(rounds) == m.registry.Keys
    requires RoundsOf(Progress(m.(state := DeInitializing), Ok, Initial), rounds, frees)
    ensures Inv(m)
    ensures var o := DeInitialize(m, rounds, frees);
      && (o.status == Ok <==> forall b <- m.live :: Freeable(b, frees))
      && (o.status == Ok ==> o.m.live == {} && multiset(o.m.freed) == multiset(m.handedOut))
  {
    Safety(ops, m);
    DeInitializeIs(m, rounds, frees);
  }
}
