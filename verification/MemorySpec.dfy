/** What each call of the local memory manager does to the manager's state, as functions on values.

    Everything the manager cannot decide itself is an argument: the random numbers of new handles, the
    answers of the allocators and of Pool::Init. `handedOut`, `live` and `freed` record what the allocators
    have seen: the successful Allocate calls in order, the buffers out at the moment, and the successful
    Free calls in order. */
module MemorySpec {
  import opened QCDefs

  const MAX_POOLS_PER_NODE := 255
  const ALLOCATOR_LAST := 7
  const NODE_TYPE_RESERVED := 0
  const NODE_TYPE_LAST := 17

  datatype MemoryHandle = MemoryHandle(nodeType: nat, nodeCount: UInt8, random: UInt32, pid: int)

  datatype PoolHandle = PoolHandle(poolCount: UInt8, random: UInt32, memory: MemoryHandle)

  /** The fields a std::set of descriptors compares; two descriptors equal here are the same element. */
  datatype Buffer = Buffer(pBuf: nat, size: nat, dmaHandle: nat, pid: int, alignment: nat, cache: nat, allocator: nat)

  datatype NodeId = NodeId(nodeType: nat, id: UInt8)

  datatype Manager = Manager(
    state: ObjectState,
    numOfNodes: UInt8,
    registry: map<MemoryHandle, nat>,
    pools: seq<set<PoolHandle>>,
    counters: seq<UInt8>,
    allocations: seq<set<Buffer>>,
    handedOut: seq<Buffer>,
    live: set<Buffer>,
    freed: seq<Buffer>)

  datatype Outcome = Outcome(m: Manager, status: Status)

  /** The answers the allocators would give to Free, one per descriptor. */
  type Frees = Buffer -> Status

  const FRESH := Manager(Initial, 0, map[], [], [], [], [], {}, [])

  /** The vectors are as long as numOfNodes and every registered id indexes them. */
  ghost predicate Shape(m: Manager) {
    && |m.pools| == |m.counters| == |m.allocations| == m.numOfNodes
    && (forall h <- m.registry :: m.registry[h] < m.numOfNodes)
  }

  function Initialize(m: Manager, numOfNodes: UInt8): Outcome {
    if m.state != Initial then Outcome(m, BadState)
    else if numOfNodes == 0 then Outcome(m, BadArguments)
    else Outcome(m.(state := Ready, numOfNodes := numOfNodes,
                    pools := m.pools + seq(numOfNodes, _ => {}),
                    counters := m.counters + seq(numOfNodes, _ => 0),
                    allocations := m.allocations + seq(numOfNodes, _ => {})), Ok)
  }

  /** The handle Register builds on top of the caller's one: only the process id is kept. */
  function NewHandle(m: Manager, node: NodeId, handle: MemoryHandle, random: UInt32): MemoryHandle {
    handle.(nodeType := node.nodeType, nodeCount := Wrap8(|m.registry| + 1), random := random)
  }

  function Register(m: Manager, node: NodeId, handle: MemoryHandle, random: UInt32): Outcome {
    if m.state != Ready then Outcome(m, BadState)
    else if NODE_TYPE_LAST <= node.nodeType || node.nodeType == NODE_TYPE_RESERVED then Outcome(m, BadArguments)
    else if m.numOfNodes <= node.id then Outcome(m, BadArguments)
    else if m.numOfNodes <= |m.registry| then Outcome(m, BadArguments)
    else if node.id in m.registry.Values then Outcome(m, BadArguments)
    else
      var h := NewHandle(m, node, handle, random);
      if h in m.registry then Outcome(m.(state := Error), Fail)
      else Outcome(m.(registry := m.registry[h := node.id]), Ok)
  }

  function CreatePool(m: Manager, handle: MemoryHandle, allocator: nat, random: UInt32, init: Status): Outcome
    requires Shape(m)
  {
    if m.state != Ready then Outcome(m, BadState)
    else if handle !in m.registry then Outcome(m, BadArguments)
    else if ALLOCATOR_LAST <= allocator then Outcome(m, BadArguments)
    else
      var i := m.registry[handle];
      if MAX_POOLS_PER_NODE == |m.pools[i]| then Outcome(m, OutOfBound)
      else
        var ph := PoolHandle(m.counters[i], random, handle);
        var m := m.(counters := m.counters[i := Wrap8(m.counters[i] as int + 1)]);
        if ph in m.pools[i] then Outcome(m.(state := Error), Fail)
        else if init == Ok then Outcome(m.(pools := m.pools[i := m.pools[i] + {ph}]), Ok)
        else if init == Fail then Outcome(m.(state := Error), Fail)
        else Outcome(m, init)
  }

  function DestroyPool(m: Manager, ph: PoolHandle): Outcome
    requires Shape(m)
  {
    if m.state != Ready then Outcome(m, BadState)
    else if ph.memory !in m.registry then Outcome(m, BadArguments)
    else
      var i := m.registry[ph.memory];
      if ph !in m.pools[i] then Outcome(m, BadArguments)
      else Outcome(m.(pools := m.pools[i := m.pools[i] - {ph}]), Ok)
  }

  /** AllocateBufferFromPool and PutBufferToPool: the pool's own answer decides. */
  function UsePool(m: Manager, ph: PoolHandle, answer: Status): Outcome
    requires Shape(m)
  {
    if m.state != Ready then Outcome(m, BadState)
    else if ph.memory !in m.registry then Outcome(m, BadArguments)
    else if ph !in m.pools[m.registry[ph.memory]] then Outcome(m, BadArguments)
    else if answer == Fail then Outcome(m.(state := Error), Fail)
    else Outcome(m, answer)
  }

  function AllocateBuffer(m: Manager, handle: MemoryHandle, allocator: nat, size: nat, answer: Status,
                          buff: Buffer): Outcome
    requires Shape(m)
  {
    if m.state != Ready then Outcome(m, BadState)
    else if size == 0 then Outcome(m, BadArguments)
    else if handle !in m.registry then Outcome(m, BadArguments)
    else if ALLOCATOR_LAST <= allocator then Outcome(m, BadArguments)
    else if answer == Fail then Outcome(m.(state := Error), Fail)
    else if answer == Ok then
      var i := m.registry[handle];
      Outcome(m.(allocations := m.allocations[i := m.allocations[i] + {buff}],
                 handedOut := m.handedOut + [buff], live := m.live + {buff}), Ok)
    else Outcome(m, answer)
  }

  function FreeBuffer(m: Manager, handle: MemoryHandle, buff: Buffer, answer: Status): Outcome
    requires Shape(m)
  {
    if m.state != Ready then Outcome(m, BadState)
    else if handle !in m.registry then Outcome(m, BadArguments)
    else if ALLOCATOR_LAST <= buff.allocator then Outcome(m, BadArguments)
    else
      var i := m.registry[handle];
      if buff !in m.allocations[i] then Outcome(m, BadArguments)
      else if answer == Ok then
        Outcome(m.(allocations := m.allocations[i := m.allocations[i] - {buff}],
                   live := m.live - {buff}, freed := m.freed + [buff]), Ok)
      else if answer == Fail then Outcome(m.(state := Error), Fail)
      else Outcome(m, answer)
  }

  /** The two loops of ReclaimResources keep, besides the manager, the status so far and the state to leave behind. */
  datatype Progress = Progress(m: Manager, status: Status, finalState: ObjectState)

  function Note(p: Progress, o: Outcome): Progress {
    if o.status == Ok then p.(m := o.m) else Progress(o.m, o.status, Error)
  }

  function FreeAll(p: Progress, handle: MemoryHandle, order: seq<Buffer>, frees: Frees): (r: Progress)
    requires Shape(p.m)
    ensures Shape(r.m) && r.m.registry == p.m.registry && r.m.numOfNodes == p.m.numOfNodes
  {
    if order == [] then p
    else
      var r := FreeAll(p, handle, order[..|order| - 1], frees);
      Note(r, FreeBuffer(r.m, handle, order[|order| - 1], frees(order[|order| - 1])))
  }

  function DestroyAll(p: Progress, order: seq<PoolHandle>): (r: Progress)
    requires Shape(p.m)
    ensures Shape(r.m) && r.m.registry == p.m.registry && r.m.numOfNodes == p.m.numOfNodes
  {
    if order == [] then p
    else
      var r := DestroyAll(p, order[..|order| - 1]);
      Note(r, DestroyPool(r.m, order[|order| - 1]))
  }

  /** One reclaim: the handle, and the order in which the copies of its buffers and pools are walked. */
  datatype Round = Round(handle: MemoryHandle, bufs: seq<Buffer>, pools: seq<PoolHandle>)

  function Elems<T>(order: seq<T>): set<T> { set x | x in order }

  ghost predicate Distinct<T>(order: seq<T>) {
    forall i, j :: 0 <= i < j < |order| ==> order[i] != order[j]
  }

  ghost predicate Enumerates<T>(order: seq<T>, s: set<T>) {
    Elems(order) == s && Distinct(order)
  }

  /** The round walks the buffers and the pools the handle's node has; the pool copy is taken after the
      buffers were freed, which never touches it. */
  ghost predicate RoundOf(m: Manager, r: Round)
    requires Shape(m)
  {
    r.handle in m.registry ==>
      && Enumerates(r.bufs, m.allocations[m.registry[r.handle]])
      && Enumerates(r.pools, m.pools[m.registry[r.handle]])
  }

  function ReclaimResources(m: Manager, r: Round, frees: Frees): Outcome
    requires Shape(m)
  {
    if r.handle !in m.registry then Outcome(m, BadArguments)
    else
      var p := DestroyAll(FreeAll(Progress(m.(state := Ready), Ok, m.state), r.handle, r.bufs, frees), r.pools);
      Outcome(p.m.(state := p.finalState), p.status)
  }

  function UnRegister(m: Manager, r: Round, frees: Frees): Outcome
    requires Shape(m)
  {
    if m.state != Ready then Outcome(m, BadState)
    else if r.handle !in m.registry then Outcome(m, BadArguments)
    else
      var o := ReclaimResources(m, r, frees);
      if o.status == Ok then Outcome(o.m.(state := m.state, registry := o.m.registry - {r.handle}), Ok)
      else Outcome(o.m.(state := Error), o.status)
  }

  /** DeInitialize's loop over the registry. */
  function ReclaimAll(p: Progress, rounds: seq<Round>, frees: Frees): (r: Progress)
    requires Shape(p.m)
    ensures Shape(r.m) && r.m.registry == p.m.registry && r.m.numOfNodes == p.m.numOfNodes
  {
    if rounds == [] then p
    else
      var r := ReclaimAll(p, rounds[..|rounds| - 1], frees);
      assert Shape(ReclaimResources(r.m, rounds[|rounds| - 1], frees).m);
      Note(r, ReclaimResources(r.m, rounds[|rounds| - 1], frees))
  }

  function Handles(rounds: seq<Round>): set<MemoryHandle> {
    set k | 0 <= k < |rounds| :: rounds[k].handle
  }

  /** The rounds visit distinct handles, each in an order of what its node then holds. */
  ghost predicate RoundsOf(p: Progress, rounds: seq<Round>, frees: Frees) {
    && Shape(p.m)
    && (rounds != [] ==>
      var init, r := rounds[..|rounds| - 1], rounds[|rounds| - 1];
      && RoundsOf(p, init, frees)
      && r.handle !in Handles(init)
      && RoundOf(ReclaimAll(p, init, frees).m, r))
  }

  /** DeInitialize drops the vectors and the configuration but leaves the registry as it is. */
  function DeInitialize(m: Manager, rounds: seq<Round>, frees: Frees): Outcome
    requires Shape(m)
  {
    if m.state == Initial then Outcome(m, BadState)
    else
      var p := ReclaimAll(Progress(m.(state := DeInitializing), Ok, Initial), rounds, frees);
      Outcome(p.m.(state := p.finalState, numOfNodes := 0, pools := [], counters := [], allocations := []), p.status)
  }
}
