/** The video node as the object that the application's calls and the driver's event thread update without a lock.
    Between any two operations of a call the event thread may do any number of its own. */
module VidcNodeBaseModule {
  import opened QCDefs
  import opened VidcLifecycleSpec
  import opened VidcLifecycleProofs

  /** The event thread: idle, before a test, before a write, or reconfiguring the output. */
  datatype EventThread = NoEvent | ToTest(msg: Message) | ToWrite(msg: Message, value: ObjectState) | AtReconfig

  /** The run leads from a new node to this one. */
  ghost predicate Led(kind: Kind, steps: seq<Step>, node: Node) { Run(NewNode(kind), steps) == Some(node) }

  predicate Follows(e: EventThread, h: Handler) {
    match h
    case Quiet => e == NoEvent
    case Looking(msg) => e == ToTest(msg)
    case Answering(msg, value, _) => e == ToWrite(msg, value)
    case Reconfiguring => e == AtReconfig
  }

  class VidcNodeBase {
    const kind: Kind
    var state: ObjectState
    var completed: Option<Message>
    var drained: bool
    var event: EventThread
    /** The node of the specification, and the run that led to it. */
    ghost var node: Node
    ghost var steps: seq<Step>

    ghost predicate Valid()
      reads this
    {
      && node.kind == kind && node.state == state && node.completed == completed && node.drained == drained
      && Follows(event, node.handler)
      && Led(kind, steps, node)
    }

    constructor (kind: Kind)
      ensures Valid() && this.kind == kind && state == Initial && node == NewNode(kind)
    {
      this.kind := kind;
      state, completed, drained, event := Initial, None, false, NoEvent;
      node, steps := NewNode(kind), [];
    }

    ghost method Advance(step: Step)
      requires Led(kind, steps, node) && Enabled(node, step)
      modifies `node, `steps
      ensures node == Apply(old(node), step) && steps == old(steps) + [step]
      ensures Led(kind, steps, node)
    {
      hide Apply, Enabled;
      RunSnoc(NewNode(kind), steps, step);
      node := Apply(node, step);
      steps := steps + [step];
    }

    // ---- the event thread ----

    /** The switch of EventCallback up to the write: what is to be written after this test. */
    method EventCallback(eventId: Message) returns (answer: Option<ObjectState>)
      ensures answer == Answer(kind, state, eventId)
      ensures eventId == RespLoad ==> answer == Some(if state == Initializing then Ready else Error)
      ensures eventId == RespRelease ==> answer == Some(if state == DeInitializing then Initial else Error)
    {
      answer := None;
      if kind == Decoder && (eventId == StartInputDone || eventId == StartOutputDone) {
        answer := Some(Running);
      } else if eventId == Fatal {
        answer := Some(Error);
      } else if eventId == RespStart {
        answer := Some(if state == Starting then Running else Error);
      } else if eventId == RespLoad {
        answer := Some(if state == Initializing then Ready else Error);
      } else if eventId == RespRelease {
        answer := Some(if state == DeInitializing then Initial else Error);
      } else if eventId == RespStop {
        answer := Some(if state == Stopping then Ready else Error);
      } else if eventId == RespPause {
        answer := Some(if state == Pausing then Pause else Error);
      } else if eventId == RespResume {
        answer := Some(if state == Resuming then Running else Error);
      }
    }

    /** One operation of the event thread. */
    method EventStep()
      requires Valid()
      modifies this
      ensures Valid() && node.pc == old(node.pc) && node.returned == old(node.returned)
    {
      hide Led;
      match event
      case NoEvent =>
        var msg: Message := *;
        if Completes(msg) {
          completed := Some(msg);
        }
        drained := drained || msg == Drained;
        event := if CallsBack(msg) then ToTest(msg) else NoEvent;
        Advance(Receive(msg));
      case ToTest(msg) =>
        var answer := EventCallback(msg);
        if kind == Decoder && msg == OutputReconfig {
          event := AtReconfig;
        } else if answer.None? {
          event := NoEvent;
        } else {
          event := ToWrite(msg, answer.value);
        }
        Advance(Look);
      case ToWrite(msg, value) =>
        state := value;
        event := NoEvent;
        Advance(Reply);
      case AtReconfig =>
        var started: bool, ok: bool := *, *;
        ok := ok && started;
        if started {
          completed := None;
        }
        event := if ok then NoEvent else ToWrite(OutputReconfig, Error);
        Advance(Reconfigure(started, ok));
    }

    /** Any number of them. */
    method Events()
      requires Valid()
      modifies this
      ensures Valid() && node.pc == old(node.pc) && node.returned == old(node.returned)
    {
      hide Led;
      var turns: nat := *;
      while turns > 0
        invariant Valid() && node.pc == old(node.pc) && node.returned == old(node.returned)
      {
        EventStep();
        turns := turns - 1;
      }
    }

    // ---- the application thread: what lies between two events ----

    ghost method Begin(api: Api)
      requires Valid() && node.pc.Idle?
      modifies `node, `steps
      ensures Valid() && node.pc == First(api) && node.returned == old(node.returned)
    {
      hide Led;
      Advance(Call(api));
    }

    ghost method Decide(ok: bool)
      requires Valid() && Deciding(node.pc)
      modifies `node, `steps
      ensures Valid() && node.pc == LocalPc(old(node.pc), ok)
      ensures node.returned == old(node.returned) + LocalReturn(old(node.pc), ok)
    {
      hide Led;
      Advance(Local(ok));
    }

    ghost method FreeBuffers(freed: bool)
      requires Valid() && node.pc.Freeing?
      modifies `node, `steps
      ensures Valid() && node.returned == old(node.returned)
      ensures node.pc == if freed then Freed(old(node.pc.from)) else Refuse(old(node.pc.from), Status.Fail)
    {
      hide Led;
      Advance(Free(freed));
    }

    method ReadState() returns (found: ObjectState)
      requires Valid() && node.pc.Test?
      modifies this
      ensures Valid()
      ensures node.pc == TestPc(old(node.pc), found)
      ensures node.returned == old(node.returned) + TestReturn(old(node.pc), found)
    {
      hide Led;
      Events();
      found := state;
      Advance(Read);
    }

    method WriteState(value: ObjectState, ghost more: bool)
      requires Valid() && Writing(node.pc) && value == StoreValue(node.pc)
      modifies this
      ensures Valid() && state == value
      ensures node.pc == StorePc(kind, old(node.pc), more)
      ensures node.returned == old(node.returned) + StoreReturn(old(node.pc))
    {
      hide Led;
      Events();
      state := value;
      Advance(Store(more));
    }

    // ---- commands and waits ----

    /** WaitForCmdCompleted, with this much patience. */
    method WaitForCommand(t: Task, ghost todo: seq<Message>, cmd: Message, patience: nat) returns (ok: bool)
      requires Valid() && todo != [] && todo[0] == cmd && node.pc == Wait(t, todo)
      modifies this
      ensures Valid() && node.returned == old(node.returned)
      ensures node.pc ==
        if !ok then FailedPc(t) else if cmd == LastFlag then CheckDrain(t, todo) else NextPc(t, todo)
    {
      hide Led;
      var left := patience;
      Events();
      while completed != Some(cmd)
        invariant Valid() && node.pc == Wait(t, todo) && node.returned == old(node.returned)
        decreases left
      {
        if left == 0 {
          Advance(GiveUp);
          return false;
        }
        left := left - 1;
        Events();
      }
      Advance(Poll);
      return true;
    }

    /** Before a command: clear what was completed, and before a drain its flag. */
    method InitCommand(t: Task, ghost todo: seq<Message>, cmd: Message)
      requires Valid() && todo != [] && todo[0] == cmd && node.pc == Clear(t, todo)
      modifies this
      ensures Valid() && node.returned == old(node.returned) && node.pc == Issue(t, todo)
    {
      hide Led;
      completed := None;
      Advance(ClearCommand);
      Events();
      if cmd == LastFlag {
        drained := false;
        Advance(ClearDrained);
        Events();
      }
    }

    /** One command: clear what was completed, issue, wait; for the drain also ask whether it was received. */
    method Command(t: Task, ghost todo: seq<Message>, cmd: Message, ioctlOk: bool, patience: nat) returns (ok: bool)
      requires Valid() && todo != [] && todo[0] == cmd && node.pc == Clear(t, todo)
      modifies this
      ensures Valid() && node.returned == old(node.returned)
      ensures node.pc == if ok then NextPc(t, todo) else FailedPc(t)
    {
      hide Led, NextPc, FailedPc;
      InitCommand(t, todo, cmd);
      Advance(Ioctl(ioctlOk));
      if !ioctlOk {
        return false;
      }
      ok := WaitForCommand(t, todo, cmd, patience);
      if ok && cmd == LastFlag {
        Events();
        ok := drained;
        Advance(Read);
      }
    }

    /** WaitForState. */
    method WaitForState(t: Task, expected: ObjectState, patience: nat) returns (ok: bool)
      requires Valid() && t != TaskStop && expected == Awaited(t) && node.pc == WaitState(t)
      modifies this
      ensures Valid()
      ensures node.pc == if ok then WaitedPc(t) else Broken(t)
      ensures node.returned == old(node.returned) + if ok then WaitedReturn(t) else []
    {
      hide Led;
      var left := patience;
      Events();
      while state != expected
        invariant Valid() && node.pc == WaitState(t) && node.returned == old(node.returned)
        decreases left
      {
        if left == 0 {
          Advance(GiveUp);
          return false;
        }
        left := left - 1;
        Events();
      }
      Advance(Poll);
      return true;
    }

    // ---- the calls ----

    method Start(ioctlOk: bool, patience: nat) returns (ret: Status)
      requires Valid() && node.pc.Idle?
      modifies this
      ensures Valid() && node.pc.Idle? && node.returned == old(node.returned) + [(Api.Start, ret)]
      ensures ret == Status.Fail ==> state == Error
    {
      hide Valid, Run, Apply, Enabled;
      Begin(Api.Start);
      var found := ReadState();
      if found != Ready {
        return BadState;
      }
      WriteState(Starting, false);
      Events();
      var cmd := if kind == Encoder then RespStart else StartInputDone;
      var ok := Command(TaskStart, [cmd], cmd, ioctlOk, patience);
      if ok {
        ok := WaitForState(TaskStart, Running, patience);
        if ok {
          return Ok;
        }
      }
      WriteState(Error, false);
      return Status.Fail;
    }

    method Stop(ioctlOk: seq<bool>, patience: nat) returns (ret: Status)
      requires Valid() && node.pc.Idle? && |ioctlOk| == 3
      modifies this
      ensures Valid() && node.pc.Idle? && node.returned == old(node.returned) + [(Api.Stop, ret)]
      ensures (ret == Ok ==> state == Ready) && (ret == Status.Fail ==> state == Error)
    {
      hide Valid, Run, Apply, Enabled;
      Begin(Api.Stop);
      var found := ReadState();
      if found != Running {
        return BadState;
      }
      WriteState(Stopping, false);
      Events();
      var ok;
      if kind == Encoder {
        ok := Command(TaskStop, [RespStop], RespStop, ioctlOk[0], patience);
      } else {
        ok := StopDecoder(ioctlOk, patience);
      }
      WriteState(if ok then Ready else Error, false);
      return if ok then Ok else Status.Fail;
    }

    /** Drain, then stop the input, then the output. */
    method StopDecoder(ioctlOk: seq<bool>, patience: nat) returns (ok: bool)
      requires Valid() && |ioctlOk| == 3 && node.pc == Clear(TaskStop, [LastFlag, StopInputDone, StopOutputDone])
      modifies this
      ensures Valid() && node.returned == old(node.returned)
      ensures node.pc == if ok then Finish else Broken(TaskStop)
    {
      hide Valid, Run, Apply, Enabled;
      ok := Command(TaskStop, [LastFlag, StopInputDone, StopOutputDone], LastFlag, ioctlOk[0], patience);
      if ok {
        assert [LastFlag, StopInputDone, StopOutputDone][1..] == [StopInputDone, StopOutputDone];
        Events();
        ok := Command(TaskStop, [StopInputDone, StopOutputDone], StopInputDone, ioctlOk[1], patience);
      }
      if ok {
        assert [StopInputDone, StopOutputDone][1..] == [StopOutputDone];
        Events();
        ok := Command(TaskStop, [StopOutputDone], StopOutputDone, ioctlOk[2], patience);
      }
    }

    /** The first two tests of DeInitialize. */
    method MayRelease(from: From) returns (may: bool)
      requires Valid() && node.pc == Test(TaskRelease(from), 0)
      modifies this
      ensures Valid() && node.returned == old(node.returned)
      ensures node.pc == if may then Test(TaskRelease(from), 2) else Refuse(from, BadState)
    {
      hide Valid, Run, Apply, Enabled;
      var found := ReadState();
      may := true;
      if found != Ready {
        found := ReadState();
        may := found == Error;
      }
    }

    /** The third test, the release of the resources, and the buffers. */
    method ReleaseAll(from: From, ioctlOk: bool, patience: nat, freed: bool) returns (ret: Status)
      requires Valid() && node.pc == Test(TaskRelease(from), 2)
      modifies this
      ensures Valid() && node.returned == old(node.returned)
      ensures node.pc == if ret == Ok then Freed(from) else Refuse(from, ret)
    {
      hide Valid, Run, Apply, Enabled;
      var found := ReadState();
      ret := Ok;
      if found == Ready {
        ret := ReleaseResources(from, ioctlOk, patience);
      }
      if ret == Ok {
        Events();
        FreeBuffers(freed);
        ret := if freed then Ok else Status.Fail;
      }
    }

    /** DeInitialize from its first test of the state on. */
    method Release(from: From, ioctlOk: bool, patience: nat, freed: bool) returns (ret: Status)
      requires Valid() && node.pc == Test(TaskRelease(from), 0)
      modifies this
      ensures Valid() && node.pc == ReleasedPc(from) && node.returned == old(node.returned) + ReleasedReturn(from, ret)
      ensures state == if ret == Ok then Initial else Error
    {
      hide Valid, Run, Apply, Enabled;
      ret := BadState;
      var may := MayRelease(from);
      if may {
        ret := ReleaseAll(from, ioctlOk, patience, freed);
      }
      WriteState(if ret == Ok then Initial else Error, false);
    }

    method ReleaseResources(from: From, ioctlOk: bool, patience: nat) returns (ret: Status)
      requires Valid() && node.pc == Enter(TaskRelease(from))
      modifies this
      ensures Valid() && node.returned == old(node.returned)
      ensures ret == Ok || ret == Status.Fail
      ensures node.pc == if ret == Ok then Freeing(from) else Refuse(from, ret)
    {
      hide Valid, Run, Apply, Enabled;
      WriteState(DeInitializing, false);
      Events();
      var ok := Command(TaskRelease(from), [RespRelease], RespRelease, ioctlOk, patience);
      if ok {
        ok := WaitForState(TaskRelease(from), Initial, patience);
        if ok {
          return Ok;
        }
      }
      WriteState(Error, false);
      return Status.Fail;
    }

    method DeInitialize(ioctlOk: bool, patience: nat, freed: bool) returns (ret: Status)
      requires Valid() && node.pc.Idle?
      modifies this
      ensures Valid() && node.pc.Idle? && node.returned == old(node.returned) + [(Api.DeInitialize, ret)]
      ensures state == if ret == Ok then Initial else Error
    {
      hide Valid, Run, Apply, Enabled;
      Begin(Api.DeInitialize);
      ret := Release(Caller, ioctlOk, patience, freed);
    }

    /** PostInit up to its own clean-up: load the resources and wait for Ready. */
    method LoadResources(ioctlOk: bool, patience: nat) returns (ok: bool)
      requires Valid() && node.pc == Clear(TaskInit, [RespLoad])
      modifies this
      ensures Valid() && node.returned == old(node.returned)
      ensures node.pc == if ok then CheckBuffers else PostFail
    {
      hide Valid, Run, Apply, Enabled;
      ok := Command(TaskInit, [RespLoad], RespLoad, ioctlOk, patience);
      if ok {
        ok := WaitForState(TaskInit, Ready, patience);
        if !ok {
          WriteState(Error, false);
        }
      }
    }

    /** The way out of a failed Initialize: Error is written once or more, and the node is deinitialised if the base
        class had been initialised. */
    method GiveUpInit(base: bool, status: Status, extra: nat, ioctlOk: bool, patience: nat, freed: bool)
      requires Valid() && node.pc == Failing(base, status)
      modifies this
      ensures Valid() && node.pc.Idle? && node.returned == old(node.returned) + [(Init, status)]
      ensures state == Error
    {
      hide Valid, Run, Apply, Enabled;
      var left := extra;
      while left > 0
        invariant Valid() && node.pc == Failing(base, status) && node.returned == old(node.returned)
      {
        WriteState(Error, true);
        left := left - 1;
      }
      WriteState(Error, false);
      if base {
        var ignored := Release(CleanUp(status), ioctlOk, patience, freed);
      }
      WriteState(Error, false);
    }

    /** Initialize up to its set-up of the driver; base tells whether the base class was initialised. */
    method Prepare(configOk: bool, valuesOk: bool) returns (ret: Status, base: bool)
      requires Valid() && node.pc == Config
      modifies this
      ensures Valid() && node.returned == old(node.returned)
      ensures node.pc == if ret == Ok then Setup else Failing(base, ret)
      ensures ret == Ok ==> base
    {
      hide Valid, Run, Apply, Enabled;
      base := false;
      Decide(configOk);
      if !configOk {
        return BadArguments, base;
      }
      var found := ReadState();
      if found != Initial {
        return BadState, base;
      }
      base := true;
      Decide(valuesOk);
      if !valuesOk {
        return BadArguments, base;
      }
      WriteState(Initializing, false);
      return Ok, base;
    }

    /** The rest of it, with the clean-up of a failed PostInit. */
    method SetUp(setupOk: bool, buffersOk: bool, ioctlOk: bool, patience: nat, freed: bool) returns (ret: Status)
      requires Valid() && node.pc == Setup
      modifies this
      ensures Valid() && node.pc == if ret == Ok then Idle else Failing(true, ret)
      ensures node.returned == old(node.returned) + if ret == Ok then [(Init, Ok)] else []
    {
      hide Valid, Run, Apply, Enabled;
      Events();
      Decide(setupOk);
      if !setupOk {
        return Status.Fail;
      }
      var ok := LoadResources(ioctlOk, patience);
      if !ok {
        WriteState(Error, false);
        var ignored := Release(PostInit, ioctlOk, patience, freed);
        return Status.Fail;
      }
      Decide(buffersOk);
      return if buffersOk then Ok else BadArguments;
    }

    /** Initialize; whether the configuration, its values, the set-up of the driver and the buffers are in order is
        decided outside the node. */
    method Initialize(configOk: bool, valuesOk: bool, setupOk: bool, buffersOk: bool,
                      ioctlOk: bool, patience: nat, freed: bool, extra: nat)
      returns (ret: Status)
      requires Valid() && node.pc.Idle?
      modifies this
      ensures Valid() && node.pc.Idle? && node.returned == old(node.returned) + [(Init, ret)]
      ensures ret != Ok ==> state == Error
    {
      hide Valid, Run, Apply, Enabled;
      Begin(Init);
      var base;
      ret, base := Prepare(configOk, valuesOk);
      if ret == Ok {
        ret := SetUp(setupOk, buffersOk, ioctlOk, patience, freed);
      }
      if ret != Ok {
        GiveUpInit(base, ret, extra, ioctlOk, patience, freed);
      }
    }

    /** A frame can be submitted by any thread at any time. */
    method ValidateFrameSubmission(hasBuffer: bool, size: nat, requireNonZeroSize: bool) returns (ret: Status)
      ensures ret == Ok <==> Accepts(state, hasBuffer, size, requireNonZeroSize)
      ensures ret == Ok <==> state == Running && hasBuffer && !(size == 0 && requireNonZeroSize)
      ensures ret == BadState <==> state != Running
      ensures ret in {Ok, BadState, BadArguments}
    {
      ret := Ok;
      if state != Running {
        ret := BadState;
      }
      if ret == Ok && !hasBuffer {
        ret := BadArguments;
      }
      if ret == Ok && size == 0 && requireNonZeroSize {
        ret := BadArguments;
      }
    }
  }
}
