/** The exchange of buffers between the video driver client, the application threads and the driver.

    The critical sections of EmptyBuffer, FillBuffer and DeviceCbHandler are functions on the buffer map of one
    port; `System` interleaves them, one step at a time, with the ioctls of any number of threads and with the
    driver's done events. */
module VidcBufferSpec {
  import opened QCDefs

  type Handle = nat

  datatype Frame = Frame(
    handle: Handle,
    timestampNs: UInt64,
    appMarkData: UInt64,
    pBuf: nat,
    size: nat,
    validSize: nat,
    frameFlag: nat,
    frameType: nat)

  const NO_FRAME := Frame(0, 0, 0, 0, 0, 0, 0, 0)

  datatype Info = Info(desc: Frame, used: bool)

  datatype Side = Input | Output

  /** m_inputMap or m_outputMap with the mode and the buffer count of its direction. */
  datatype Port = Port(side: Side, dynamic: bool, bufNum: nat, infos: map<Handle, Info>)

  predicate Used(p: Port, h: Handle) {
    h in p.infos && p.infos[h].used
  }

  function RoundDownToUs(ns: UInt64): UInt64 { 1000 * (ns / 1000) }

  /** The time stamp the client stores for a submitted frame. */
  function StoredTime(side: Side, f: Frame): UInt64 {
    if side == Input then RoundDownToUs(f.timestampNs) else f.timestampNs
  }

  datatype Marked = Marked(port: Port, status: Status)

  /** The locked section at the start of EmptyBuffer and FillBuffer. */
  function Mark(p: Port, f: Frame): Marked {
    var h, ts := f.handle, StoredTime(p.side, f);
    if p.dynamic then
      if h in p.infos then
        if !p.infos[h].used then
          var d := p.infos[h].desc.(timestampNs := ts, appMarkData := f.appMarkData);
          Marked(p.(infos := p.infos[h := Info(d, true)]), Ok)
        else Marked(p, NoMem)
      else if |p.infos| < p.bufNum then
        Marked(p.(infos := p.infos[h := Info(f.(timestampNs := ts), true)]), Ok)
      else Marked(p, NoMem)
    else if h in p.infos && !p.infos[h].used then
      var d := if p.side == Input then p.infos[h].desc.(timestampNs := ts, appMarkData := f.appMarkData)
               else p.infos[h].desc;
      Marked(p.(infos := p.infos[h := Info(d, true)]), Ok)
    else Marked(p, NoMem)
  }

  /** `map[handle].bUsedFlag = false`; the index operator would add a missing entry. */
  function Clear(p: Port, h: Handle): Port {
    var desc := if h in p.infos then p.infos[h].desc else NO_FRAME;
    p.(infos := p.infos[h := Info(desc, false)])
  }

  /** The locked section of a done event: reset the flag and copy the entry, if there is one. */
  datatype DoneResult = DoneResult(port: Port, copy: Option<Frame>)

  function Done(p: Port, h: Handle): DoneResult {
    if h in p.infos then DoneResult(Clear(p, h), Some(p.infos[h].desc)) else DoneResult(p, None)
  }

  /** Registering a buffer overwrites its entry, whatever it was. */
  function Enter(p: Port, buf: Frame): Port {
    p.(infos := p.infos[buf.handle := Info(buf, false)])
  }

  /** SetBuffer registers the buffers one by one until an ioctl fails. */
  function SetBuffer(p: Port, buffers: seq<Frame>): Port {
    if buffers == [] then p
    else Enter(SetBuffer(p, buffers[..|buffers| - 1]), buffers[|buffers| - 1])
  }

  // ---- interleavings ----

  /** Where a thread is inside EmptyBuffer or FillBuffer: the flag is set and the ioctl pending, or the ioctl
      was refused and the flag is still to be reset. */
  datatype Call = Submitting(frame: Frame) | Refused(frame: Frame)

  /** The copy a done event took of the entry of submission number `id`, and whether the callback that passes
      it on has been made; the lock is not held between the two. */
  datatype Answer = Answer(id: nat, desc: Frame, made: bool)

  datatype System = System(
    port: Port,
    calls: map<nat, Call>,
    /** the handles the driver holds, with the number of the submission */
    held: map<Handle, nat>,
    /** the submissions the driver accepted, in order */
    accepted: seq<Frame>,
    /** one entry for each done event, in order */
    answers: seq<Answer>)

  datatype Step =
    | Begin(thread: nat, frame: Frame)
    | IoctlOk(thread: nat)
    | IoctlFail(thread: nat)
    | Reset(thread: nat)
    | DoneEvent(handle: Handle)
    | Callback(index: nat)
    | Register(buffer: Frame) // one round of SetBuffer, which takes no lock

  /** When a step can happen. A done event names a handle the driver holds, and the nodes call SetBuffer in static
      mode only; all else is free. */
  predicate Enabled(s: System, step: Step) {
    match step
    case Begin(t, _) => t !in s.calls
    case IoctlOk(t) => t in s.calls && s.calls[t].Submitting?
    case IoctlFail(t) => t in s.calls && s.calls[t].Submitting?
    case Reset(t) => t in s.calls && s.calls[t].Refused?
    case DoneEvent(h) => h in s.held
    case Callback(k) => k < |s.answers| && !s.answers[k].made
    case Register(_) => !s.port.dynamic
  }

  function Apply(s: System, step: Step): System
    requires Enabled(s, step)
  {
    match step
    case Begin(t, f) =>
      var m := Mark(s.port, f);
      if m.status == Ok then s.(port := m.port, calls := s.calls[t := Submitting(f)]) else s
    case IoctlOk(t) =>
      var f := s.calls[t].frame;
      s.(calls := s.calls - {t}, held := s.held[f.handle := |s.accepted|], accepted := s.accepted + [f])
    case IoctlFail(t) => s.(calls := s.calls[t := Refused(s.calls[t].frame)])
    case Reset(t) => s.(port := Clear(s.port, s.calls[t].frame.handle), calls := s.calls - {t})
    case DoneEvent(h) =>
      var d := Done(s.port, h);
      s.(port := d.port, held := s.held - {h},
         answers := if d.copy.Some? then s.answers + [Answer(s.held[h], d.copy.value, false)] else s.answers)
    case Callback(k) => s.(answers := s.answers[k := s.answers[k].(made := true)])
    case Register(b) => s.(port := Enter(s.port, b))
  }

  /** The system after a run, if every step was enabled when it happened. */
  function Run(start: System, steps: seq<Step>): Option<System> {
    if steps == [] then Some(start)
    else
      var k := Run(start, steps[..|steps| - 1]);
      var step := steps[|steps| - 1];
      if k.Some? && Enabled(k.value, step) then Some(Apply(k.value, step)) else None
  }

  /** What the driver sees of one handle. */
  datatype DriverEvent = Given | Returned

  /** What a step shows the driver of handle h. */
  function Shown(s: System, step: Step, h: Handle): seq<DriverEvent>
    requires Enabled(s, step)
  {
    if step.IoctlOk? && s.calls[step.thread].frame.handle == h then [Given]
    else if step == DoneEvent(h) then [Returned]
    else []
  }

  function Traffic(start: System, steps: seq<Step>, h: Handle): seq<DriverEvent>
    requires Run(start, steps).Some?
  {
    if steps == [] then []
    else
      var init := steps[..|steps| - 1];
      Traffic(start, init, h) + Shown(Run(start, init).value, steps[|steps| - 1], h)
  }

  // ---- negotiation ----

  datatype Negotiated = Negotiated(status: Status, bufNum: nat)

  /** NegotiateBufferReq: `first` and `second` are the buffer counts the driver reports before and after it was
      told to use the requested one; None is a failed ioctl. */
  function Negotiate(bufNum: nat, requested: nat, first: Option<nat>, setOk: bool, second: Option<nat>): Negotiated {
    match first
    case None => Negotiated(Fail, bufNum)
    case Some(actual) =>
      if actual > requested then Negotiated(Ok, actual)
      else if actual == requested then Negotiated(Ok, requested)
      else Negotiated(if setOk && second == Some(requested) then Ok else Fail, requested)
  }
}
