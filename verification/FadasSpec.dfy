/** The FADAS service: a use count and a cache of registered buffers for each processor, and a log of the calls it
    makes to the library behind it, each with its own answer. */
module FadasSpec {
  import opened QCDefs

  /** The key of a null pointer. */
  const NULL: nat := 0

  datatype MemInfo = MemInfo(fd: int, size: nat, offset: nat, batch: nat, ptr: nat, sizeOne: nat)

  /** What the library was asked, and what it answered: to start, and for its version; to register the parts of a
      buffer, one call after the other, and whether the cache then took an entry, and how many calls will take it back;
      to take a buffer back; to stop. */
  datatype Event =
    | Started(ok: bool, version: bool)
    | Registration(ptr: nat, calls: seq<bool>, cached: bool, owed: nat)
    | Deregistration(ptr: nat, calls: seq<bool>)
    | Stopped(ok: bool)

  datatype Slot = Slot(dsp: bool, initialized: bool, useRef: nat, memMap: map<nat, MemInfo>, log: seq<Event>)

  datatype BufType = In | Out | InOut

  datatype Desc =
    | ImageDesc(ptr: nat, size: nat, offset: nat, batch: nat, nv12: bool)
    | TensorDesc(ptr: nat, size: nat, offset: nat)
    | OtherDesc

  /** The file descriptor of the mapping, negative when it failed, and how many calls of the first and of the second
      registration the library accepts before it refuses one. */
  datatype Answer = Answer(fd: int, first: nat, second: nat)

  /** Whether the library accepts call number i for taking a buffer back. */
  type Returns = (nat, nat) -> bool

  // ---------------------------------------------------------------- one processor

  /** The version is asked for on the signal processors only. */
  function InitSlot(s: Slot, ok: bool, version: bool): (Slot, Status) {
    if s.initialized then (s.(useRef := s.useRef + 1), Ok)
    else
      var answered := !s.dsp || version;
      var logged := s.(log := s.log + [Started(ok, answered)]);
      if ok && answered then (logged.(initialized := true, useRef := s.useRef + 1), Ok) else (logged, Fail)
  }

  function DeregCalls(s: Slot, ptr: nat, accepts: Returns): seq<bool>
    requires ptr in s.memMap
  {
    seq(Owed(s.dsp, s.memMap[ptr].batch), i requires i >= 0 => accepts(ptr, i))
  }

  /** The entry goes, whatever the library answers. */
  function DeregSlot(s: Slot, ptr: nat, accepts: Returns): Slot {
    if ptr == NULL || ptr !in s.memMap then s
    else s.(memMap := s.memMap - {ptr}, log := s.log + [Deregistration(ptr, DeregCalls(s, ptr, accepts))])
  }

  function DeregAll(s: Slot, ptrs: seq<nat>, accepts: Returns): Slot {
    if ptrs == [] then s else DeregSlot(DeregAll(s, ptrs[..|ptrs| - 1], accepts), ptrs[|ptrs| - 1], accepts)
  }

  /** The order in which the registered buffers are visited. */
  predicate Enumerates(ptrs: seq<nat>, memMap: map<nat, MemInfo>) {
    (forall p <- ptrs :: p in memMap) && (forall p <- memMap :: p in ptrs)
  }

  predicate LastUse(s: Slot) { s.initialized && s.useRef == 1 }

  /** The service takes itself for stopped, whatever the library answers. */
  function DeinitSlot(s: Slot, ptrs: seq<nat>, accepts: Returns, stopped: bool): Slot {
    if !s.initialized || s.useRef == 0 then s
    else if s.useRef > 1 then s.(useRef := s.useRef - 1)
    else
      var d := DeregAll(s, ptrs, accepts);
      d.(initialized := false, useRef := 0, memMap := map[], log := d.log + [Stopped(stopped)])
  }

  /** NV12 input is registered plane by plane. */
  predicate PlaneByPlane(t: BufType, d: Desc) { d.ImageDesc? && d.nv12 && t == In }

  /** Calls of the first registration: a batch takes one for each element, except on a signal processor. */
  function FirstCalls(dsp: bool, t: BufType, d: Desc): nat {
    if d.ImageDesc? && t != In && !dsp then d.batch else 1
  }

  /** The library accepts so many of n calls; the first refusal ends the loop. */
  function Answers(n: nat, accepted: nat): seq<bool> {
    if n <= accepted then seq(n, _ => true) else seq(accepted, _ => true) + [false]
  }

  /** All calls for a buffer, in order. On a signal processor the mapping is one of them. */
  function Calls(dsp: bool, t: BufType, d: Desc, a: Answer): seq<bool> {
    if a.fd < 0 then []
    else
      (if dsp then [true] else []) + Answers(FirstCalls(dsp, t, d), a.first)
      + (if PlaneByPlane(t, d) then Answers(1, a.second) else [])
  }

  /** Whether the source takes the registration for successful: of two planes it looks at the second only. */
  predicate Accepted(dsp: bool, t: BufType, d: Desc, a: Answer) {
    a.fd >= 0 && if PlaneByPlane(t, d) then a.second >= 1 else a.first >= FirstCalls(dsp, t, d)
  }

  /** How many calls take a buffer back: two on a signal processor, one for each element of the batch elsewhere. */
  function Owed(dsp: bool, batch: nat): nat { if dsp then 2 else batch }

  /** What is logged of a registration that got as far as the library. */
  function Registered(dsp: bool, t: BufType, d: Desc, a: Answer): Event
    requires !d.OtherDesc?
  {
    var batch := if d.ImageDesc? then d.batch else 1;
    var cached := Accepted(dsp, t, d, a);
    Registration(d.ptr, Calls(dsp, t, d, a), cached, if cached then Owed(dsp, batch) else 0)
  }

  function InfoOf(d: Desc, fd: int): MemInfo
    requires !d.OtherDesc? && (d.ImageDesc? ==> d.batch > 0)
  {
    if d.ImageDesc? then MemInfo(fd, d.size, d.offset, d.batch, d.ptr, d.size / d.batch)
    else MemInfo(fd, d.size, d.offset, 1, d.ptr, d.size)
  }

  /** An image is compared with what is stored; a tensor is not. */
  predicate Matches(d: Desc, info: MemInfo)
    requires !d.OtherDesc?
  {
    d.TensorDesc? || (d.ptr == info.ptr && d.size == info.size && d.offset == info.offset && d.batch == info.batch)
  }

  /** RegBuf; None is a buffer type outside the enumeration. */
  function RegSlot(s: Slot, t: Option<BufType>, d: Desc, a: Answer): (Slot, int)
    requires d.ImageDesc? ==> d.batch > 0
  {
    if t.None? || d.OtherDesc? then (s, -1)
    else if d.ptr in s.memMap then (s, if Matches(d, s.memMap[d.ptr]) then s.memMap[d.ptr].fd else -1)
    else if a.fd < 0 then (s, a.fd)
    else
      var cached := Accepted(s.dsp, t.value, d, a);
      var logged := s.(log := s.log + [Registered(s.dsp, t.value, d, a)]);
      if cached then (logged.(memMap := s.memMap[d.ptr := InfoOf(d, a.fd)]), a.fd)
      else (logged, -1)
  }

  // ---------------------------------------------------------------- all processors and their clients

  const PROCESSORS: nat := 6
  const SLOTS: nat := 9

  /** The processors: HTP0 to HTP3, CPU, GPU; HTP2 and HTP3 exist on one kind of chip only, where the further cores of
      HTP0 have slots of their own. */
  predicate Supported(soc8797: bool, processor: int) {
    processor in {0, 1, 4, 5} || (soc8797 && processor in {2, 3})
  }

  function HandleIndex(soc8797: bool, processor: nat, coreId: nat): nat {
    if soc8797 && processor == 0 && coreId > 0 then PROCESSORS - 1 + coreId else processor
  }

  /** All slots but those of the CPU and the GPU are signal processors. */
  predicate IsDsp(index: nat) { index != 4 && index != 5 }

  type Client = nat

  datatype Service = Service(slots: seq<Slot>, clients: map<Client, nat>)

  datatype Step =
    | Init(c: Client, index: nat, ok: bool, version: bool)
    | Deinit(c: Client, ptrs: seq<nat>, accepts: Returns, stopped: bool)
    | Reg(c: Client, t: Option<BufType>, d: Desc, a: Answer)
    | Dereg(c: Client, ptr: nat, accepts: Returns)

  /** A client initialises before it uses the service, and not again before it has deinitialised. */
  predicate Legal(v: Service, step: Step) {
    match step
    case Init(c, index, _, _) => c !in v.clients && index < |v.slots|
    case Deinit(c, ptrs, _, _) =>
      c in v.clients && v.clients[c] < |v.slots| && Enumerates(ptrs, v.slots[v.clients[c]].memMap)
    case Reg(c, _, d, _) => c in v.clients && v.clients[c] < |v.slots| && (d.ImageDesc? ==> d.batch > 0)
    case Dereg(c, _, _) => c in v.clients && v.clients[c] < |v.slots|
  }

  function Apply(v: Service, step: Step): Service
    requires Legal(v, step)
  {
    match step
    case Init(c, index, ok, version) =>
      var r := InitSlot(v.slots[index], ok, version);
      Service(v.slots[index := r.0], if r.1 == Ok then v.clients[c := index] else v.clients)
    case Deinit(c, ptrs, accepts, stopped) =>
      Service(v.slots[v.clients[c] := DeinitSlot(v.slots[v.clients[c]], ptrs, accepts, stopped)], v.clients - {c})
    case Reg(c, t, d, a) => v.(slots := v.slots[v.clients[c] := RegSlot(v.slots[v.clients[c]], t, d, a).0])
    case Dereg(c, ptr, accepts) =>
      v.(slots := v.slots[v.clients[c] := DeregSlot(v.slots[v.clients[c]], ptr, accepts)])
  }

  function Run(v: Service, steps: seq<Step>): Option<Service>
    decreases |steps|
  {
    if steps == [] then Some(v) else if Legal(v, steps[0]) then Run(Apply(v, steps[0]), steps[1..]) else None
  }

  function NewSlot(index: nat): Slot { Slot(IsDsp(index), false, 0, map[], []) }

  function NewService(): Service { Service(seq(SLOTS, k requires k >= 0 => NewSlot(k)), map[]) }
}
