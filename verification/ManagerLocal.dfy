/** The local memory manager as the class that updates its fields in place. */
module MemoryManagerLocal {
  import opened QCDefs
  import opened MemorySpec

  class ManagerLocal {
    var state: ObjectState
    var numOfNodes: UInt8
    var handleToNodeId: map<MemoryHandle, nat>
    var pools: seq<set<PoolHandle>>
    var poolSequenceCounters: seq<UInt8>
    var allocations: seq<set<Buffer>>

    /** What the allocators have seen. */
    ghost var handedOut: seq<Buffer>
    ghost var live: set<Buffer>
    ghost var freed: seq<Buffer>

    ghost function Abs(): Manager
      reads this
    {
      Manager(state, numOfNodes, handleToNodeId, pools, poolSequenceCounters, allocations, handedOut, live, freed)
    }

    constructor ()
      ensures Abs() == FRESH
    {
      state, numOfNodes, handleToNodeId := Initial, 0, map[];
      pools, poolSequenceCounters, allocations := [], [], [];
      handedOut, live, freed := [], {}, [];
    }

    method Initialize(init: UInt8) returns (status: Status)
      modifies this
      ensures Abs() == MemorySpec.Initialize(old(Abs()), init).m
      ensures status == MemorySpec.Initialize(old(Abs()), init).status
    {
      status := Ok;
      var finalState := state;
      if state != Initial {
        status := BadState;
      } else if init == 0 {
        status := BadArguments;
      } else {
        numOfNodes := init;
        state := Initializing;
      }
      if state == Initializing && status == Ok {
        ghost var before := old(Abs());
        var i := 0;
        while i < numOfNodes
          invariant 0 <= i <= numOfNodes == init
          invariant pools == before.pools + seq(i, _ => {})
          invariant poolSequenceCounters == before.counters + seq(i, _ => 0)
          invariant allocations == before.allocations + seq(i, _ => {})
          invariant Abs() == before.(state := Initializing, numOfNodes := init, pools := pools,
                                     counters := poolSequenceCounters, allocations := allocations)
        {
          pools := pools + [{}];
          poolSequenceCounters := poolSequenceCounters + [0];
          allocations := allocations + [{}];
          i := i + 1;
        }
        finalState := Ready;
      }
      state := finalState;
    }

    method IsNodeIdUnique(node: NodeId) returns (unique: bool)
      ensures unique <==> node.id !in handleToNodeId.Values
    {
      unique := true;
      var rest := handleToNodeId.Keys;
      while rest != {} && unique
        invariant rest <= handleToNodeId.Keys
        invariant unique ==> forall h :: h in handleToNodeId && h !in rest ==> handleToNodeId[h] != node.id
        invariant !unique ==> node.id in handleToNodeId.Values
        decreases |rest|
      {
        var h :| h in rest;
        rest := rest - {h};
        if handleToNodeId[h] == node.id {
          unique := false;
        }
      }
    }

    method Register(node: NodeId, given: MemoryHandle, random: UInt32) returns (status: Status, handle: MemoryHandle)
      modifies this
      ensures Abs() == MemorySpec.Register(old(Abs()), node, given, random).m
      ensures status == MemorySpec.Register(old(Abs()), node, given, random).status
      ensures status in {Ok, Fail} ==> handle == NewHandle(old(Abs()), node, given, random)
    {
      status := Ok;
      handle := given;
      if state != Ready {
        status := BadState;
      } else if NODE_TYPE_LAST <= node.nodeType || node.nodeType == NODE_TYPE_RESERVED {
        status := BadArguments;
      } else if numOfNodes <= node.id {
        status := BadArguments;
      } else {
        handle := handle.(nodeType := node.nodeType);
        if numOfNodes <= |handleToNodeId| {
          status := BadArguments;
        } else {
          var unique := IsNodeIdUnique(node);
          if !unique {
            status := BadArguments;
          } else {
            handle := handle.(nodeCount := Wrap8(|handleToNodeId| + 1));
            handle := handle.(random := random);
            if handle in handleToNodeId {
              status := Fail;
            } else {
              handleToNodeId := handleToNodeId[handle := node.id];
              if handle !in handleToNodeId {
                status := Fail;
              }
            }
          }
        }
      }
      if status == Fail {
        state := Error;
      }
    }

    method CreatePool(handle: MemoryHandle, allocator: nat, random: UInt32, init: Status)
      returns (status: Status, poolHandle: Option<PoolHandle>)
      requires Shape(Abs())
      modifies this
      ensures Abs() == MemorySpec.CreatePool(old(Abs()), handle, allocator, random, init).m
      ensures status == MemorySpec.CreatePool(old(Abs()), handle, allocator, random, init).status
      ensures status == Ok ==> poolHandle.Some? && poolHandle.value in pools[handleToNodeId[handle]]
    {
      status := Ok;
      poolHandle := None;
      var finalState := state;
      if state != Ready {
        status := BadState;
      } else if handle !in handleToNodeId {
        status := BadArguments;
      } else if ALLOCATOR_LAST <= allocator {
        status := BadArguments;
      } else {
        var nodeIndex := handleToNodeId[handle];
        if MAX_POOLS_PER_NODE == |pools[nodeIndex]| {
          status := OutOfBound;
        } else {
          var count := poolSequenceCounters[nodeIndex];
          poolSequenceCounters := poolSequenceCounters[nodeIndex := Wrap8(count as int + 1)];
          var ph := PoolHandle(count, random, handle);
          poolHandle := Some(ph);
          if ph in pools[nodeIndex] {
            finalState := Error;
            status := Fail;
          } else {
            finalState := Error;
            status := init;
            if status == Ok {
              finalState := Ready;
              pools := pools[nodeIndex := pools[nodeIndex] + {ph}];
            } else if status != Fail {
              finalState := Ready;
            }
          }
        }
      }
      state := finalState;
    }

    method DestroyPool(poolHandle: PoolHandle) returns (status: Status)
      requires Shape(Abs())
      modifies this
      ensures Abs() == MemorySpec.DestroyPool(old(Abs()), poolHandle).m
      ensures status == MemorySpec.DestroyPool(old(Abs()), poolHandle).status
    {
      status := Ok;
      if state != Ready {
        status := BadState;
      } else if poolHandle.memory !in handleToNodeId {
        status := BadArguments;
      } else {
        var nodeIndex := handleToNodeId[poolHandle.memory];
        if poolHandle !in pools[nodeIndex] {
          status := BadArguments;
        } else {
          pools := pools[nodeIndex := pools[nodeIndex] - {poolHandle}];
        }
      }
    }

    method AllocateBuffer(handle: MemoryHandle, allocator: nat, size: nat, answer: Status, buff: Buffer)
      returns (status: Status)
      requires Shape(Abs())
      modifies this
      ensures Abs() == MemorySpec.AllocateBuffer(old(Abs()), handle, allocator, size, answer, buff).m
      ensures status == MemorySpec.AllocateBuffer(old(Abs()), handle, allocator, size, answer, buff).status
    {
      status := Ok;
      var finalState := state;
      if state != Ready {
        status := BadState;
      } else if size == 0 {
        status := BadArguments;
      } else if handle !in handleToNodeId {
        status := BadArguments;
      } else if ALLOCATOR_LAST <= allocator {
        status := BadArguments;
      } else {
        var nodeIndex := handleToNodeId[handle];
        status := answer;
        if status == Ok {
          handedOut, live := handedOut + [buff], live + {buff};
        }
        if status == Fail {
          finalState := Error;
        } else if status == Ok {
          allocations := allocations[nodeIndex := allocations[nodeIndex] + {buff}];
        }
      }
      state := finalState;
    }

    method FreeBuffer(handle: MemoryHandle, buff: Buffer, answer: Status) returns (status: Status)
      requires Shape(Abs())
      modifies this
      ensures Abs() == MemorySpec.FreeBuffer(old(Abs()), handle, buff, answer).m
      ensures status == MemorySpec.FreeBuffer(old(Abs()), handle, buff, answer).status
    {
      status := Ok;
      if state != Ready {
        status := BadState;
      } else if handle !in handleToNodeId {
        status := BadArguments;
      } else if ALLOCATOR_LAST <= buff.allocator {
        status := BadArguments;
      } else {
        var nodeIndex := handleToNodeId[handle];
        if buff in allocations[nodeIndex] {
          status := answer;
          if status == Ok {
            live, freed := live - {buff}, freed + [buff];
            allocations := allocations[nodeIndex := allocations[nodeIndex] - {buff}];
          }
        } else {
          status := BadArguments;
        }
      }
      if status == Fail {
        state := Error;
      }
    }

    /** The first loop of ReclaimResources: free every buffer of a copy, while FreeBuffer erases from the set itself. */
    method FreeNodeBuffers(handle: MemoryHandle, frees: Frees, final: ObjectState)
      returns (status: Status, finalState: ObjectState, ghost bufs: seq<Buffer>)
      requires Shape(Abs()) && handle in handleToNodeId
      modifies this
      ensures Enumerates(bufs, old(allocations[handleToNodeId[handle]]))
      ensures Progress(Abs(), status, finalState) == FreeAll(Progress(old(Abs()), Ok, final), handle, bufs, frees)
    {
      hide MemorySpec.FreeBuffer, FreeAll, Distinct;
      status, finalState, bufs := Ok, final, [];
      ghost var start := Progress(Abs(), Ok, final);
      NothingFreed(start, handle, frees);
      var bufferMap := allocations[handleToNodeId[handle]];
      while bufferMap != {}
        invariant Distinct(bufs) && Elems(bufs) !! bufferMap
        invariant Elems(bufs) + bufferMap == old(allocations[handleToNodeId[handle]])
        invariant Progress(Abs(), status, finalState) == FreeAll(start, handle, bufs, frees)
        decreases bufferMap
      {
        var buffDescriptor :| buffDescriptor in bufferMap;
        FreeAllSnoc(start, handle, bufs, buffDescriptor, frees);
        ElemsSnoc(bufs, buffDescriptor);
        var localStatus := FreeBuffer(handle, buffDescriptor, frees(buffDescriptor));
        if localStatus != Ok {
          status := localStatus;
          finalState := Error;
        }
        bufferMap := bufferMap - {buffDescriptor};
        bufs := bufs + [buffDescriptor];
      }
    }

    /** The second loop, over a copy of the pool map. */
    method DestroyNodePools(nodeIndex: nat, was: Status, final: ObjectState)
      returns (status: Status, finalState: ObjectState, ghost order: seq<PoolHandle>)
      requires Shape(Abs()) && nodeIndex < |pools|
      modifies this
      ensures Enumerates(order, old(pools[nodeIndex]))
      ensures Progress(Abs(), status, finalState) == DestroyAll(Progress(old(Abs()), was, final), order)
    {
      hide MemorySpec.DestroyPool, DestroyAll, Distinct;
      status, finalState, order := was, final, [];
      ghost var start := Progress(Abs(), was, final);
      NothingDestroyed(start);
      var poolMap := pools[nodeIndex];
      while poolMap != {}
        invariant Distinct(order) && Elems(order) !! poolMap
        invariant Elems(order) + poolMap == old(pools[nodeIndex])
        invariant Progress(Abs(), status, finalState) == DestroyAll(start, order)
        decreases poolMap
      {
        var poolHandle :| poolHandle in poolMap;
        DestroyAllSnoc(start, order, poolHandle);
        ElemsSnoc(order, poolHandle);
        var localStatus := DestroyPool(poolHandle);
        if localStatus != Ok {
          status := localStatus;
          finalState := Error;
        }
        poolMap := poolMap - {poolHandle};
        order := order + [poolHandle];
      }
    }

    /** The loops work on copies while the public methods they call change the state and the sets behind them. The
        order of each walk is returned for the specification. */
    method ReclaimResources(handle: MemoryHandle, frees: Frees) returns (status: Status, ghost round: Round)
      requires Shape(Abs())
      modifies this
      ensures round.handle == handle && RoundOf(old(Abs()), round)
      ensures Abs() == MemorySpec.ReclaimResources(old(Abs()), round, frees).m
      ensures status == MemorySpec.ReclaimResources(old(Abs()), round, frees).status
    {
      hide FreeAll, DestroyAll, Enumerates;
      status := Ok;
      round := Round(handle, [], []);
      var finalState := state;
      if state != Ready {
        state := Ready;
      }
      if handle !in handleToNodeId {
        status := BadArguments;
      } else {
        var nodeIndex := handleToNodeId[handle];
        ghost var start := Progress(Abs(), Ok, finalState);
        ghost var bufs;
        status, finalState, bufs := FreeNodeBuffers(handle, frees, finalState);
        FreesLeavePools(start, handle, bufs, frees);
        ghost var order;
        status, finalState, order := DestroyNodePools(nodeIndex, status, finalState);
        round := Round(handle, bufs, order);
      }
      state := finalState;
    }


    method UnRegister(memHandle: MemoryHandle, frees: Frees) returns (status: Status, ghost round: Round)
      requires Shape(Abs())
      modifies this
      ensures round.handle == memHandle && (old(state) == Ready ==> RoundOf(old(Abs()), round))
      ensures Abs() == MemorySpec.UnRegister(old(Abs()), round, frees).m
      ensures status == MemorySpec.UnRegister(old(Abs()), round, frees).status
    {
      status := Ok;
      round := Round(memHandle, [], []);
      var startState := state;
      var finalState := startState;
      if startState != Ready {
        status := BadState;
      } else if memHandle !in handleToNodeId {
        status := BadArguments;
      }
      if status == Ok {
        finalState := Error;
        status, round := ReclaimResources(memHandle, frees);
        if status == Ok {
          finalState := startState;
          handleToNodeId := handleToNodeId - {memHandle};
          if memHandle in handleToNodeId {
            finalState := Error;
            status := Fail;
          }
        }
      }
      state := finalState;
    }

    /** DeInitialize's first loop, over the registry. */
    method ReclaimRegistered(frees: Frees) returns (status: Status, finalState: ObjectState, ghost rounds: seq<Round>)
      requires Shape(Abs())
      modifies this
      ensures Handles(rounds) == old(handleToNodeId.Keys)
      ensures RoundsOf(Progress(old(Abs()), Ok, Initial), rounds, frees)
      ensures Progress(Abs(), status, finalState) == ReclaimAll(Progress(old(Abs()), Ok, Initial), rounds, frees)
    {
      hide MemorySpec.ReclaimResources, RoundsOf, RoundOf;
      ghost var start := Progress(Abs(), Ok, Initial);
      NoRounds(start, frees);
      status, finalState, rounds := Ok, Initial, [];
      var rest := handleToNodeId.Keys;
      while rest != {}
        invariant RoundsOf(start, rounds, frees)
        invariant Handles(rounds) !! rest && Handles(rounds) + rest == start.m.registry.Keys
        invariant Progress(Abs(), status, finalState) == ReclaimAll(start, rounds, frees)
        decreases rest
      {
        var handle :| handle in rest;
        var statusLocal;
        ghost var round;
        statusLocal, round := ReclaimResources(handle, frees);
        if statusLocal != Ok {
          finalState := Error;
          status := statusLocal;
        }
        RoundsSnoc(start, rounds, round, frees);
        rest := rest - {handle};
        rounds := rounds + [round];
      }
    }

    /** DeInitialize's second loop: the vectors are emptied from the back. */
    method ClearVectors()
      requires Shape(Abs())
      modifies `pools, `poolSequenceCounters, `allocations
      ensures pools == [] && poolSequenceCounters == [] && allocations == []
    {
      var i := 0;
      while i < numOfNodes
        invariant 0 <= i <= numOfNodes
        invariant |pools| == |allocations| == |poolSequenceCounters| == numOfNodes - i
      {
        pools := pools[..|pools| - 1];
        poolSequenceCounters := poolSequenceCounters[..|poolSequenceCounters| - 1];
        allocations := allocations[..|allocations| - 1];
        i := i + 1;
      }
    }

    method DeInitialize(frees: Frees) returns (status: Status, ghost rounds: seq<Round>)
      requires Shape(Abs())
      modifies this
      ensures old(state) != Initial ==>
        && Handles(rounds) == old(handleToNodeId.Keys)
        && RoundsOf(Progress(old(Abs()).(state := DeInitializing), Ok, Initial), rounds, frees)
      ensures Abs() == MemorySpec.DeInitialize(old(Abs()), rounds, frees).m
      ensures status == MemorySpec.DeInitialize(old(Abs()), rounds, frees).status
    {
      if state == Initial {
        status, rounds := BadState, [];
      } else {
        state := DeInitializing;
        var finalState;
        status, finalState, rounds := ReclaimRegistered(frees);
        ClearVectors();
        numOfNodes := 0;
        state := finalState;
      }
    }
  }

  lemma ElemsSnoc<T>(order: seq<T>, x: T)
    ensures Elems(order + [x]) == Elems(order) + {x}
    ensures Distinct(order) && x !in Elems(order) ==> Distinct(order + [x])
  {
    assert forall y :: y in order + [x] <==> y in order || y == x;
  }

  lemma NothingFreed(p: Progress, handle: MemoryHandle, frees: Frees)
    requires Shape(p.m)
    ensures FreeAll(p, handle, [], frees) == p && Distinct<Buffer>([])
  {
  }

  lemma FreeAllSnoc(p: Progress, handle: MemoryHandle, order: seq<Buffer>, b: Buffer, frees: Frees)
    requires Shape(p.m)
    ensures
      && var r := FreeAll(p, handle, order, frees);
      && FreeAll(p, handle, order + [b], frees) == Note(r, MemorySpec.FreeBuffer(r.m, handle, b, frees(b)))
  {
    assert (order + [b])[..|order|] == order;
  }

  lemma NothingDestroyed(p: Progress)
    requires Shape(p.m)
    ensures DestroyAll(p, []) == p && Distinct<PoolHandle>([])
  {
  }

  lemma DestroyAllSnoc(p: Progress, order: seq<PoolHandle>, ph: PoolHandle)
    requires Shape(p.m)
    ensures
      && var r := DestroyAll(p, order);
      && DestroyAll(p, order + [ph]) == Note(r, MemorySpec.DestroyPool(r.m, ph))
  {
    assert (order + [ph])[..|order|] == order;
  }

  lemma {:induction false} FreesLeavePools(p: Progress, handle: MemoryHandle, bufs: seq<Buffer>, frees: Frees)
    requires Shape(p.m)
    ensures FreeAll(p, handle, bufs, frees).m.pools == p.m.pools
  {
    if bufs != [] {
      FreesLeavePools(p, handle, bufs[..|bufs| - 1], frees);
    }
  }

  lemma NoRounds(p: Progress, frees: Frees)
    requires Shape(p.m)
    ensures RoundsOf(p, [], frees) && Handles([]) == {} && ReclaimAll(p, [], frees) == p
  {
  }

  lemma RoundsSnoc(p: Progress, rounds: seq<Round>, r: Round, frees: Frees)
    requires RoundsOf(p, rounds, frees) && r.handle !in Handles(rounds)
    requires RoundOf(ReclaimAll(p, rounds, frees).m, r)
    ensures RoundsOf(p, rounds + [r], frees)
    ensures Handles(rounds + [r]) == Handles(rounds) + {r.handle}
    ensures ReclaimAll(p, rounds + [r], frees) ==
      Note(ReclaimAll(p, rounds, frees), ReclaimResources(ReclaimAll(p, rounds, frees).m, r, frees))
  {
    var more := rounds + [r];
    assert more[..|rounds|] == rounds;
    assert more[|rounds|].handle in Handles(more);
    forall h | h in Handles(rounds) ensures h in Handles(more) {
      var k :| 0 <= k < |rounds| && rounds[k].handle == h;
      assert more[k].handle == h;
    }
  }
}
