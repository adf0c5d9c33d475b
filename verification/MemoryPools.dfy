/** Conservation of pools over every run of one life: a node has exactly the pools that were made for it and have not
    been removed since. */
module MemoryPools {
  import opened QCDefs
  import opened MemorySpec
  import opened MemoryProofs
  import opened MemoryCalls

  /** What a call did to the pools, told by its arguments and its status: made one, destroyed one, or destroyed all
      those of a handle. */
  datatype PoolEvent = Made(ph: PoolHandle) | Destroyed(ph: PoolHandle) | Dropped(handle: MemoryHandle) | Untouched

  /** No allocator answers Fail to the reclaim of these buffers. */
  predicate Unhalted(bufs: seq<Buffer>, frees: Frees) {
    forall b <- bufs :: b.allocator < 7 ==> frees(b) != Fail
  }

  function Happened(k: Manager, op: Op): PoolEvent
    requires Shape(k)
  {
    match op
    case OpCreatePool(h, _, random, _) =>
      if Apply(k, op).status == Ok && h in k.registry then Made(PoolHandle(k.counters[k.registry[h]], random, h))
      else Untouched
    case OpDestroyPool(ph) => if Apply(k, op).status == Ok then Destroyed(ph) else Untouched
    case OpUnRegister(round, frees) =>
      if k.state == Ready && round.handle in k.registry && Unhalted(round.bufs, frees) then Dropped(round.handle)
      else Untouched
    case OpReclaim(round, frees) =>
      if round.handle in k.registry && Unhalted(round.bufs, frees) then Dropped(round.handle) else Untouched
    case _ => Untouched
  }

  /** m is reached by the calls ops, and this is what they did to the pools. */
  ghost predicate Logged(ops: seq<Op>, m: Manager, log: seq<PoolEvent>) {
    if ops == [] then m == FRESH && log == []
    else
      |log| == |ops| && exists k: Manager ::
        && Logged(ops[..|ops| - 1], k, log[..|log| - 1]) && Shape(k) && Legal(k, ops[|ops| - 1])
        && m == Apply(k, ops[|ops| - 1]).m && log[|log| - 1] == Happened(k, ops[|ops| - 1])
  }

  /** The pool was made and not removed since. */
  predicate Stands(log: seq<PoolEvent>, ph: PoolHandle) {
    if log == [] then false
    else match log[|log| - 1]
      case Made(p) => p == ph || Stands(log[..|log| - 1], ph)
      case Destroyed(p) => p != ph && Stands(log[..|log| - 1], ph)
      case Dropped(h) => ph.memory != h && Stands(log[..|log| - 1], ph)
      case Untouched => Stands(log[..|log| - 1], ph)
  }

  /** In terms of when things happened. */
  lemma {:induction false} StandsIs(log: seq<PoolEvent>, ph: PoolHandle)
    ensures Stands(log, ph) <==>
      exists i :: 0 <= i < |log| && log[i] == Made(ph)
        && forall j :: i < j < |log| ==> log[j] != Destroyed(ph) && log[j] != Dropped(ph.memory)
  {
    if log != [] {
      var front, e := log[..|log| - 1], log[|log| - 1];
      StandsIs(front, ph);
      if Stands(front, ph) && Stands(log, ph) && e != Made(ph) {
        var i :| 0 <= i < |front| && front[i] == Made(ph)
          && forall j :: i < j < |front| ==> front[j] != Destroyed(ph) && front[j] != Dropped(ph.memory);
        assert log[i] == Made(ph);
        assert forall j :: i < j < |log| ==> j == |log| - 1 || log[j] == front[j];
      }
      if e == Made(ph) {
        assert log[|log| - 1] == Made(ph);
      } else if i :| (0 <= i < |log| && log[i] == Made(ph)
                      && forall j :: i < j < |log| ==> log[j] != Destroyed(ph) && log[j] != Dropped(ph.memory))
      {
        assert i < |front| && front[i] == Made(ph);
        assert forall j :: i < j < |front| ==> front[j] == log[j];
      }
    }
  }

  /** The pools of all nodes are those that stand, each with the node its memory handle is registered to. */
  ghost predicate PoolsStand(m: Manager, log: seq<PoolEvent>) {
    && (forall i, ph :: 0 <= i < |m.pools| && ph in m.pools[i] ==> Stands(log, ph))
    && (forall ph :: Stands(log, ph) ==>
      ph.memory in m.registry && m.registry[ph.memory] < |m.pools| && ph in m.pools[m.registry[ph.memory]])
  }

  /** The pools after a call, by what it did to them. */
  ghost predicate PoolsAfter(k: Manager, m: Manager, e: PoolEvent) {
    && (forall i, ph :: 0 <= i < |m.pools| && ph in m.pools[i] ==>
      e == Made(ph) || (i < |k.pools| && ph in k.pools[i] && e != Destroyed(ph) && e != Dropped(ph.memory)))
    && (forall h :: h in k.registry && e != Dropped(h) ==> h in m.registry && m.registry[h] == k.registry[h])
    && (forall i, ph :: 0 <= i < |k.pools| && ph in k.pools[i] && e != Destroyed(ph) && e != Dropped(ph.memory) ==>
      i < |m.pools| && ph in m.pools[i])
    && (e.Made? ==>
      && e.ph.memory in m.registry && m.registry[e.ph.memory] < |m.pools|
      && e.ph in m.pools[m.registry[e.ph.memory]])
  }

  lemma Follows(k: Manager, m: Manager, log: seq<PoolEvent>, e: PoolEvent)
    requires PoolsStand(k, log) && PoolsAfter(k, m, e)
    ensures PoolsStand(m, log + [e])
  {
    assert (log + [e])[..|log|] == log;
    forall ph | Stands(log + [e], ph)
      ensures ph.memory in m.registry && m.registry[ph.memory] < |m.pools| && ph in m.pools[m.registry[ph.memory]]
    {
      if e != Made(ph) {
        assert Stands(log, ph) && e != Destroyed(ph) && e != Dropped(ph.memory);
        assert ph in k.pools[k.registry[ph.memory]];
      }
    }
  }

  lemma UnhaltedIs(bufs: seq<Buffer>, frees: Frees)
    ensures Unhalted(bufs, frees) <==> !Halted(bufs, frees)
    ensures AllFreeable(bufs, frees) ==> Unhalted(bufs, frees)
  {
  }

  /** A reclaim takes all pools of the node, or none. */
  lemma ReclaimPools(k: Manager, r: Round, frees: Frees)
    requires Inv(k) && RoundOf(k, r) && r.handle in k.registry
    ensures
      && var i, m := k.registry[r.handle], ReclaimResources(k, r, frees).m;
      && m.registry == k.registry && i < |k.pools|
      && m.pools == if Unhalted(r.bufs, frees) then k.pools[i := {}] else k.pools
  {
    ReclaimIs(k, r, frees);
    UnhaltedIs(r.bufs, frees);
    FreeableIs(r.bufs, k.allocations[k.registry[r.handle]], frees);
    hide ReclaimResources, Halted, AllFreeable, Freeable, RoundOf, Unhalted;
    var i := k.registry[r.handle];
    assert k.pools[i] - k.pools[i] == {} && k.pools[i] - {} == k.pools[i] && k.pools[i := k.pools[i]] == k.pools;
  }

  /** Those are the pools that name the handle. */
  lemma DroppedAfter(k: Manager, h: MemoryHandle, m: Manager)
    requires PoolsOk(k.pools, k.registry) && RegistryOk(k.registry) && h in k.registry && k.registry[h] < |k.pools|
    requires m.pools == k.pools[k.registry[h] := {}]
    requires m.registry == k.registry || m.registry == k.registry - {h}
    ensures PoolsAfter(k, m, Dropped(h))
  {
  }

  lemma ReclaimDrops(k: Manager, r: Round, frees: Frees, m: Manager)
    requires Inv(k) && RoundOf(k, r) && r.handle in k.registry
    requires m.pools == ReclaimResources(k, r, frees).m.pools
    requires m.registry == k.registry || (m.registry == k.registry - {r.handle} && Unhalted(r.bufs, frees))
    ensures PoolsAfter(k, m, if Unhalted(r.bufs, frees) then Dropped(r.handle) else Untouched)
  {
    ReclaimPools(k, r, frees);
    hide ReclaimResources, Unhalted, RoundOf;
    if Unhalted(r.bufs, frees) {
      DroppedAfter(k, r.handle, m);
    }
  }

  lemma UnRegisterDrops(k: Manager, r: Round, frees: Frees)
    requires Inv(k) && RoundOf(k, r)
    ensures PoolsAfter(k, UnRegister(k, r, frees).m, Happened(k, OpUnRegister(r, frees)))
  {
    if k.state == Ready && r.handle in k.registry {
      UnRegisterOutcome(k, r, frees);
      ReclaimPools(k, r, frees);
      hide UnRegister, ReclaimResources, Unhalted, RoundOf;
      ReclaimDrops(k, r, frees, UnRegister(k, r, frees).m);
    }
  }

  lemma UnRegisterOutcome(k: Manager, r: Round, frees: Frees)
    requires Inv(k) && RoundOf(k, r) && k.state == Ready && r.handle in k.registry
    ensures
      && var m := UnRegister(k, r, frees).m;
      && m.pools == ReclaimResources(k, r, frees).m.pools
      && (m.registry == k.registry || (m.registry == k.registry - {r.handle} && Unhalted(r.bufs, frees)))
  {
    ReclaimIs(k, r, frees);
    UnhaltedIs(r.bufs, frees);
    FreeableIs(r.bufs, k.allocations[k.registry[r.handle]], frees);
    hide ReclaimResources, Halted, AllFreeable, Freeable, RoundOf, Unhalted;
  }

  lemma CallPools(k: Manager, op: Op)
    requires Inv(k) && Legal(k, op)
    ensures PoolsAfter(k, Apply(k, op).m, Happened(k, op))
  {
    hide Inv, CreatePool, DestroyPool, ReclaimResources, UnRegister, FreeBuffer, AllocateBuffer, UsePool, Register,
      Initialize, RoundOf;
    match op
    case OpInitialize(n) => InitializePools(k, n);
    case OpRegister(node, given, random) => RegisterPools(k, node, given, random);
    case OpUnRegister(r, frees) => UnRegisterDrops(k, r, frees);
    case OpCreatePool(h, a, random, init) => CreatePools(k, h, a, random, init);
    case OpDestroyPool(ph) => DestroyPools(k, ph);
    case OpUsePool(ph, answer) => UsePoolIs(k, ph, answer);
    case OpAllocate(h, a, size, answer, buff) => AllocateIs(k, h, a, size, answer, buff);
    case OpFree(h, buff, answer) => FreeIs(k, h, buff, answer);
    case OpReclaim(r, frees) =>
      if r.handle in k.registry {
        assert Shape(k) by { InvShape(k); }
        ReclaimPools(k, r, frees);
        ReclaimDrops(k, r, frees, ReclaimResources(k, r, frees).m);
      } else {
        EndsAre(k, r, [], frees);
      }
  }

  lemma InvShape(k: Manager)
    requires Inv(k)
    ensures Shape(k)
  {
  }

  lemma InitializePools(k: Manager, n: UInt8)
    requires Inv(k)
    ensures PoolsAfter(k, Initialize(k, n).m, Untouched)
  {
  }

  lemma RegisterPools(k: Manager, node: NodeId, given: MemoryHandle, random: UInt32)
    requires Inv(k)
    ensures PoolsAfter(k, Register(k, node, given, random).m, Untouched)
  {
  }

  lemma CreatePools(k: Manager, h: MemoryHandle, allocator: nat, random: UInt32, init: Status)
    requires Inv(k)
    ensures
      PoolsAfter(k, CreatePool(k, h, allocator, random, init).m, Happened(k, OpCreatePool(h, allocator, random, init)))
  {
    CreatePoolIs(k, h, allocator, random, init);
    if h in k.registry {
      CreatePoolAdds(k, h, allocator, random, init);
    }
  }

  lemma DestroyPools(k: Manager, ph: PoolHandle)
    requires Inv(k)
    ensures PoolsAfter(k, DestroyPool(k, ph).m, Happened(k, OpDestroyPool(ph)))
  {
    DestroyPoolIs(k, ph);
  }

  /** Over every run of one life: node i has exactly the pools whose memory handle is registered to it and that were
      made and not destroyed, nor dropped with their handle, since. */
  lemma {:induction false} PoolsConserved(ops: seq<Op>, m: Manager, log: seq<PoolEvent>)
    requires Logged(ops, m, log)
    ensures Reaches(ops, m) && Inv(m) && PoolsStand(m, log)
    ensures forall i, ph :: 0 <= i < |m.pools| ==>
      (ph in m.pools[i] <==> Stands(log, ph) && ph.memory in m.registry && m.registry[ph.memory] == i)
  {
    hide Inv, Apply, Happened, Legal;
    if ops == [] {
      Safety(ops, m);
      assert Inv(m) ==> PoolsOk(m.pools, m.registry) by { InvPools(m); }
    } else {
      var k: Manager :|
        && Logged(ops[..|ops| - 1], k, log[..|log| - 1]) && Shape(k) && Legal(k, ops[|ops| - 1])
        && m == Apply(k, ops[|ops| - 1]).m && log[|log| - 1] == Happened(k, ops[|ops| - 1]);
      PoolsConserved(ops[..|ops| - 1], k, log[..|log| - 1]);
      ApplyKeeps(k, ops[|ops| - 1]);
      CallPools(k, ops[|ops| - 1]);
      Follows(k, m, log[..|log| - 1], log[|log| - 1]);
      assert log == log[..|log| - 1] + [log[|log| - 1]];
      InvPools(m);
    }
  }

  lemma InvPools(m: Manager)
    ensures Inv(m) ==> PoolsOk(m.pools, m.registry)
  {
  }
}
