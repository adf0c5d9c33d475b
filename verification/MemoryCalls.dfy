/** When each call of the memory manager succeeds, what it answers otherwise, and what it leaves alone. */
module MemoryCalls {
  import opened QCDefs
  import opened MemorySpec
  import opened MemoryProofs

  /** All but the named node's pools, counter and buffers is as before. */
  predicate SameNodes(m: Manager, n: Manager, i: nat) {
    && n.registry == m.registry && n.numOfNodes == m.numOfNodes
    && |n.pools| == |m.pools| && |n.counters| == |m.counters| && |n.allocations| == |m.allocations|
    && (forall j :: 0 <= j < |m.pools| && j != i ==> n.pools[j] == m.pools[j])
    && (forall j :: 0 <= j < |m.counters| && j != i ==> n.counters[j] == m.counters[j])
    && (forall j :: 0 <= j < |m.allocations| && j != i ==> n.allocations[j] == m.allocations[j])
  }

  /** The buffers, wherever they are. */
  predicate SameBuffers(m: Manager, n: Manager) {
    n.allocations == m.allocations && n.live == m.live && n.handedOut == m.handedOut && n.freed == m.freed
  }

  /** A new manager with any number of nodes but none gets that many, all without pools and buffers. */
  lemma InitializeIs(m: Manager, numOfNodes: UInt8)
    requires Inv(m)
    ensures var o := Initialize(m, numOfNodes);
      && (o.status == Ok <==> m.state == Initial && numOfNodes > 0)
      && (m.state != Initial ==> o.status == BadState)
      && (m.state == Initial && numOfNodes == 0 ==> o.status == BadArguments)
      && (o.status != Ok ==> o.m == m)
      && (o.status == Ok ==>
        && o.m.state == Ready && o.m.numOfNodes == numOfNodes && o.m.registry == m.registry
        && |o.m.pools| == |o.m.counters| == |o.m.allocations| == numOfNodes
        && (forall i :: 0 <= i < numOfNodes ==>
          o.m.pools[i] == {} && o.m.counters[i] == 0 && o.m.allocations[i] == {}))
  {
  }

  /** A pool is made if and only if the handle is registered, the allocator exists, the node has fewer than 255 pools,
      the handle made for it is new there and the pool's own Init succeeds. Then the node has one more pool and keeps
      all others; in every other case no pool changes. */
  lemma CreatePoolIs(m: Manager, h: MemoryHandle, allocator: nat, random: UInt32, init: Status)
    requires Inv(m)
    ensures var o := CreatePool(m, h, allocator, random, init);
      && (o.status == Ok <==>
        && m.state == Ready && h in m.registry && allocator < 7 && |m.pools[m.registry[h]]| < 255
        && PoolHandle(m.counters[m.registry[h]], random, h) !in m.pools[m.registry[h]] && init == Ok)
      && (m.state != Ready ==> o.status == BadState)
      && (m.state == Ready && (h !in m.registry || allocator >= 7) ==> o.status == BadArguments)
      && (m.state == Ready && h in m.registry && allocator < 7 && |m.pools[m.registry[h]]| == 255 ==>
        o.status == OutOfBound)
      && (o.status != Ok ==> o.m.pools == m.pools)
      && SameBuffers(m, o.m) && o.m.registry == m.registry && o.m.numOfNodes == m.numOfNodes
  {
  }

  lemma CreatePoolAdds(m: Manager, h: MemoryHandle, allocator: nat, random: UInt32, init: Status)
    requires Inv(m) && h in m.registry
    ensures
      && var i, o := m.registry[h], CreatePool(m, h, allocator, random, init);
      && SameNodes(m, o.m, i)
      && (o.status == Ok ==>
        && m.pools[i] <= o.m.pools[i] && |o.m.pools[i]| == |m.pools[i]| + 1 && o.m.state == Ready
        && PoolHandle(m.counters[i], random, h) in o.m.pools[i])
      && (m.state == Ready && allocator < 7 && |m.pools[i]| < 255 ==>
        && o.m.counters[i] == (m.counters[i] as int + 1) % 256
        && (var unused := PoolHandle(m.counters[i], random, h) !in m.pools[i];
            && o.status == (if unused then init else Fail)
            && (o.m.state == Error <==> !unused || init == Fail)))
      && (m.state != Ready || allocator >= 7 || |m.pools[i]| == 255 ==> o.m == m)
  {
  }

  /** A pool is destroyed if and only if its node has it; exactly that pool goes. */
  lemma DestroyPoolIs(m: Manager, ph: PoolHandle)
    requires Inv(m)
    ensures var o := DestroyPool(m, ph);
      && (o.status == Ok <==>
        m.state == Ready && ph.memory in m.registry && ph in m.pools[m.registry[ph.memory]])
      && (m.state != Ready ==> o.status == BadState)
      && (m.state == Ready && o.status != Ok ==> o.status == BadArguments)
      && (o.status != Ok ==> o.m == m)
      && SameBuffers(m, o.m) && o.m.state == m.state && o.m.counters == m.counters
      && (o.status == Ok ==>
        && SameNodes(m, o.m, m.registry[ph.memory])
        && forall p :: p in o.m.pools[m.registry[ph.memory]] <==> p in m.pools[m.registry[ph.memory]] && p != ph)
  {
  }

  /** Using a pool leaves everything as it is; the pool's own failure stops the manager. */
  lemma UsePoolIs(m: Manager, ph: PoolHandle, answer: Status)
    requires Inv(m)
    ensures var o := UsePool(m, ph, answer);
      && (m.state != Ready ==> o == Outcome(m, BadState))
      && (m.state == Ready && !(ph.memory in m.registry && ph in m.pools[m.registry[ph.memory]]) ==>
        o == Outcome(m, BadArguments))
      && (m.state == Ready && ph.memory in m.registry && ph in m.pools[m.registry[ph.memory]] ==>
        o.status == answer && o.m == m.(state := if answer == Fail then Error else Ready))
  {
  }

  /** A buffer is handed out if and only if a size is asked for, the handle is registered, the allocator exists and it
      agrees. Then the node of the handle has it, and only that node. */
  lemma AllocateIs(m: Manager, h: MemoryHandle, allocator: nat, size: nat, answer: Status, buff: Buffer)
    requires Inv(m)
    ensures var o := AllocateBuffer(m, h, allocator, size, answer, buff);
      && (o.status == Ok <==> m.state == Ready && size > 0 && h in m.registry && allocator < 7 && answer == Ok)
      && (m.state != Ready ==> o.status == BadState)
      && (m.state == Ready && (size == 0 || h !in m.registry || allocator >= 7) ==> o == Outcome(m, BadArguments))
      && (m.state == Ready && size > 0 && h in m.registry && allocator < 7 ==>
        o.status == answer && o.m.state == if answer == Fail then Error else Ready)
      && (o.status != Ok ==> SameBuffers(m, o.m))
      && o.m.pools == m.pools && o.m.counters == m.counters && o.m.registry == m.registry
      && (o.status == Ok ==>
        && SameNodes(m, o.m, m.registry[h]) && o.m.handedOut == m.handedOut + [buff] && o.m.freed == m.freed
        && forall b :: b in o.m.allocations[m.registry[h]] <==> b in m.allocations[m.registry[h]] || b == buff)
  {
  }

  /** A buffer is taken back if and only if the node of the handle has it, its allocator exists and that agrees. */
  lemma FreeIs(m: Manager, h: MemoryHandle, buff: Buffer, answer: Status)
    requires Inv(m)
    ensures var o := FreeBuffer(m, h, buff, answer);
      && (m.state != Ready ==> o.status == BadState)
      && (m.state == Ready && !(h in m.registry && buff.allocator < 7 && buff in m.allocations[m.registry[h]]) ==>
        o == Outcome(m, BadArguments))
      && (m.state == Ready && h in m.registry && buff.allocator < 7 && buff in m.allocations[m.registry[h]] ==>
        o.status == answer && o.m.state == if answer == Fail then Error else Ready)
      && (o.status != Ok ==> SameBuffers(m, o.m))
      && o.m.pools == m.pools && o.m.counters == m.counters && o.m.registry == m.registry
      && (o.status == Ok ==>
        && h in m.registry && SameNodes(m, o.m, m.registry[h])
        && o.m.freed == m.freed + [buff] && o.m.handedOut == m.handedOut
        && forall b :: b in o.m.allocations[m.registry[h]] <==> b in m.allocations[m.registry[h]] && b != buff)
  {
  }

  /** The type is one of those allowed, and the id in range and free. */
  ghost predicate Registrable(m: Manager, node: NodeId) {
    0 < node.nodeType < 17 && node.id < m.numOfNodes && !Registered(m.registry, node.id)
  }

  /** Which refusal Register gives; `RegisterIs` says when it succeeds. The new handle has the node's type, a count one
      above the number of handles, the random number and the caller's process. */
  lemma RegisterRefusals(m: Manager, node: NodeId, given: MemoryHandle, random: UInt32)
    requires Inv(m)
    ensures var o := Register(m, node, given, random);
      && (m.state != Ready ==> o == Outcome(m, BadState))
      && (m.state == Ready && !Registrable(m, node) ==> o == Outcome(m, BadArguments))
      && (o.status == Ok ==>
        && 0 < node.nodeType < 17
        && (var h := MemoryHandle(node.nodeType, |m.registry| + 1, random, given.pid);
            && h !in m.registry && o.m == m.(registry := m.registry[h := node.id])))
  {
    assert Registered(m.registry, node.id) <==> node.id in m.registry.Values;
    if m.state == Ready {
      RegisterIs(m, node, given, random);
    }
  }

  /** UnRegister succeeds if and only if the manager is ready, the handle is registered and the allocators accept every
      buffer of its node. */
  lemma UnRegisterIs(m: Manager, r: Round, frees: Frees)
    requires Inv(m) && RoundOf(m, r)
    ensures var o := UnRegister(m, r, frees);
      && (o.status == Ok <==>
        && m.state == Ready && r.handle in m.registry
        && forall b <- m.allocations[m.registry[r.handle]] :: b.allocator < 7 && frees(b) == Ok)
      && (m.state != Ready ==> o == Outcome(m, BadState))
      && (m.state == Ready && r.handle !in m.registry ==> o == Outcome(m, BadArguments))
      && (o.status == Ok ==>
        o.m.state == Ready && o.m.registry == map h | h in m.registry && h != r.handle :: m.registry[h])
      && (m.state == Ready && r.handle in m.registry && o.status != Ok ==>
        o.m.state == Error && o.m.registry == m.registry)
  {
    if m.state == Ready && r.handle in m.registry {
      ReclaimIs(m, r, frees);
    }
  }

  /** A public reclaim of a handle that is not registered does nothing; DeInitialize of a manager that is not
      initialised does nothing; any other leaves no node, and its state tells whether it succeeded. */
  lemma EndsAre(m: Manager, r: Round, rounds: seq<Round>, frees: Frees)
    requires Inv(m)
    ensures r.handle !in m.registry ==> ReclaimResources(m, r, frees) == Outcome(m, BadArguments)
    ensures m.state == Initial ==> DeInitialize(m, rounds, frees) == Outcome(m, BadState)
    ensures m.state != Initial ==>
      var o := DeInitialize(m, rounds, frees);
      && o.m.numOfNodes == 0 && o.m.pools == [] && o.m.counters == [] && o.m.allocations == []
      && o.m.registry == m.registry
  {
  }

  // ---- what a failing reclaim answers ----

  /** What the Free of buffer i answers when all before it were asked: nothing is freed any more after a Fail. */
  function FreeAnswer(order: seq<Buffer>, frees: Frees, i: nat): Status
    requires i < |order|
  {
    if exists j :: 0 <= j < i && order[j].allocator < 7 && frees(order[j]) == Fail then BadState
    else if order[i].allocator >= 7 then BadArguments
    else frees(order[i])
  }

  /** The last call that was refused. */
  ghost predicate LastRefusal(order: seq<Buffer>, frees: Frees, k: int) {
    && 0 <= k < |order| && FreeAnswer(order, frees, k) != Ok
    && forall j :: k < j < |order| ==> FreeAnswer(order, frees, j) == Ok
  }

  lemma HaltedBefore(order: seq<Buffer>, frees: Frees)
    ensures Halted(order, frees) <==>
      exists j :: 0 <= j < |order| && order[j].allocator < 7 && frees(order[j]) == Fail
  {
  }

  lemma FreeAnswerSnoc(order: seq<Buffer>, frees: Frees)
    requires order != []
    ensures forall i :: 0 <= i < |order| - 1 ==>
      FreeAnswer(order, frees, i) == FreeAnswer(order[..|order| - 1], frees, i)
    ensures FreeAnswer(order, frees, |order| - 1) ==
      var b := order[|order| - 1];
      if Halted(order[..|order| - 1], frees) then BadState else if b.allocator >= 7 then BadArguments else frees(b)
  {
    HaltedBefore(order[..|order| - 1], frees);
  }

  lemma {:induction false} FreeAllTells(p: Progress, h: MemoryHandle, order: seq<Buffer>, frees: Frees)
    requires Shape(p.m) && p.m.state == Ready && p.status == Ok && h in p.m.registry
    requires Elems(order) <= p.m.allocations[p.m.registry[h]] && Distinct(order)
    ensures var r := FreeAll(p, h, order, frees);
      r.status != Ok ==> exists k :: LastRefusal(order, frees, k) && r.status == FreeAnswer(order, frees, k)
  {
    if order != [] {
      var init, b := order[..|order| - 1], order[|order| - 1];
      var r, q := FreeAll(p, h, order, frees), FreeAll(p, h, init, frees);
      Snoc(order);
      FreeAllTells(p, h, init, frees);
      FreeAllIs(p, h, init, frees);
      FreeAnswerSnoc(order, frees);
      LastTells(p, h, order, frees);
      hide FreeAll, FreeAnswer, Halted, AllFreeable, Elems, Distinct;
      var answer := FreeAnswer(order, frees, |order| - 1);
      if answer != Ok {
        assert LastRefusal(order, frees, |order| - 1);
      } else if r.status != Ok {
        var k :| LastRefusal(init, frees, k) && q.status == FreeAnswer(init, frees, k);
        assert LastRefusal(order, frees, k);
      }
    }
  }

  /** The last turn of the loop. */
  lemma LastTells(p: Progress, h: MemoryHandle, order: seq<Buffer>, frees: Frees)
    requires Shape(p.m) && p.m.state == Ready && p.status == Ok && h in p.m.registry && order != []
    requires Elems(order) <= p.m.allocations[p.m.registry[h]] && Distinct(order)
    ensures
      && var r, q := FreeAll(p, h, order, frees), FreeAll(p, h, order[..|order| - 1], frees);
      && var answer := FreeAnswer(order, frees, |order| - 1);
      && r.status == if answer == Ok then q.status else answer
  {
    var init, b := order[..|order| - 1], order[|order| - 1];
    Snoc(order);
    FreeAllIs(p, h, init, frees);
    FreeAnswerSnoc(order, frees);
    NotDone(init, b, frees);
    var q := FreeAll(p, h, init, frees);
    assert FreeAll(p, h, order, frees) == Note(q, FreeBuffer(q.m, h, b, frees(b)));
    hide Halted, AllFreeable, FreeAnswer, Done, Elems, Distinct, FreeAll;
    StillThere(p.m, p.m.registry[h], Done(init, frees), b);
    FreeStatus(q.m, h, b, frees(b));
  }

  lemma StillThere(m: Manager, i: nat, d: seq<Buffer>, b: Buffer)
    requires i < |m.allocations| && b in m.allocations[i] && b !in d
    ensures b in GiveBack(m, i, d).allocations[i]
  {
  }

  lemma FreeStatus(m: Manager, h: MemoryHandle, b: Buffer, answer: Status)
    requires Shape(m) && h in m.registry && b in m.allocations[m.registry[h]]
    ensures FreeBuffer(m, h, b, answer).status ==
      if m.state != Ready then BadState else if b.allocator >= 7 then BadArguments else answer
  {
  }

  lemma NotDone(init: seq<Buffer>, b: Buffer, frees: Frees)
    requires b !in init
    ensures b !in Done(init, frees)
  {
  }

  /** A failing reclaim answers what the last refused Free answered; if one of them answered Fail and the node has
      pools, it answers BAD_STATE, as DestroyPool does then. UnRegister and DeInitialize hand on what the reclaims
      answer. */
  lemma ReclaimTells(m: Manager, r: Round, frees: Frees)
    requires Inv(m) && RoundOf(m, r) && r.handle in m.registry && ReclaimResources(m, r, frees).status != Ok
    ensures var o := ReclaimResources(m, r, frees);
      if Halted(r.bufs, frees) && r.pools != [] then o.status == BadState
      else exists k :: LastRefusal(r.bufs, frees, k) && o.status == FreeAnswer(r.bufs, frees, k)
    ensures m.state == Ready ==> UnRegister(m, r, frees).status == ReclaimResources(m, r, frees).status
  {
    var i := m.registry[r.handle];
    var p := Progress(m.(state := Ready), Ok, m.state);
    FreeAllIs(p, r.handle, r.bufs, frees);
    FreeAllTells(p, r.handle, r.bufs, frees);
    var q := FreeAll(p, r.handle, r.bufs, frees);
    DestroyAllIs(q, i, r.pools);
    hide FreeAll, DestroyAll, Halted, AllFreeable, FreeAnswer, LastRefusal, Done;
  }
}
