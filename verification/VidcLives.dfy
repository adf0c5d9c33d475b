/** Whole lives of a node in which every call succeeds, segment by segment, from any state the segment can begin in. */
module VidcLives {
  import opened QCDefs
  import opened VidcLifecycleSpec
  import opened VidcLifecycleProofs

  /** No call and no message is under way. */
  predicate Calm(n: Node, kind: Kind, state: ObjectState) {
    n.kind == kind && n.state == state && n.pc == Idle && n.handler == Quiet
  }

  /** The steps lead from n to such a node, with one more answer to the caller. */
  predicate Leads(n: Node, steps: seq<Step>, state: ObjectState, api: Api) {
    && Run(n, steps).Some? && Calm(Run(n, steps).value, n.kind, state)
    && Run(n, steps).value.returned == n.returned + [(api, Ok)]
  }

  /** The application is inside a call made from n, at pc. */
  predicate Within(m: Node, n: Node, pc: Pc, state: ObjectState, handler: Handler) {
    m.kind == n.kind && m.pc == pc && m.state == state && m.handler == handler && m.returned == n.returned
  }

  lemma Nothing(returned: seq<(Api, Status)>)
    ensures returned + [] == returned
  {
  }

  // ---- the segments ----

  const PREPARE: seq<Step> := [Call(Init), Local(true), Read, Local(true)]
  const SET_UP: seq<Step> := [Store(false), Local(true), ClearCommand, Ioctl(true)]
  const LOAD: seq<Step> := [Receive(RespLoad), Poll, Look, Reply]
  const ACCEPT: seq<Step> := [Poll, Local(true)]

  lemma Prepares(n: Node)
    requires Calm(n, n.kind, Initial)
    ensures Run(n, PREPARE).Some? && Within(Run(n, PREPARE).value, n, Enter(TaskInit), Initial, Quiet)
  {
    Nothing(n.returned);
    RunFour(n, Call(Init), Local(true), Read, Local(true));
  }

  lemma SetsUp(n: Node)
    requires n.pc == Enter(TaskInit) && n.handler == Quiet
    ensures Run(n, SET_UP).Some? && Within(Run(n, SET_UP).value, n, Wait(TaskInit, [RespLoad]), Initializing, Quiet)
  {
    Nothing(n.returned);
    RunFour(n, Store(false), Local(true), ClearCommand, Ioctl(true));
  }

  lemma LoadRuns(n: Node)
    requires n.pc == Wait(TaskInit, [RespLoad]) && n.state == Initializing && n.handler == Quiet
    ensures Run(n, LOAD).Some? && Within(Run(n, LOAD).value, n, WaitState(TaskInit), Ready, Quiet)
  {
    hide Apply, Enabled;
    DoReceive(n, RespLoad);
    var n1 := Apply(n, Receive(RespLoad));
    DoPoll(n1);
    var n2 := Apply(n1, Poll);
    DoLook(n2);
    DoReply(Apply(n2, Look));
    RunFour(n, Receive(RespLoad), Poll, Look, Reply);
  }

  lemma AcceptRuns(n: Node)
    requires n.pc == WaitState(TaskInit) && n.state == Ready && n.handler == Quiet
    ensures Leads(n, ACCEPT, Ready, Init)
  {
    Nothing(n.returned);
    RunTwo(n, Poll, Local(true));
  }

  /** Initialize: configuration, state and values; the entering write, set-up and command; the response; the buffers. */
  const INITIALIZE: seq<Step> := PREPARE + SET_UP + LOAD + ACCEPT

  lemma InitializeRuns(n: Node)
    requires Calm(n, n.kind, Initial)
    ensures Leads(n, INITIALIZE, Ready, Init)
  {
    hide Run, PREPARE, SET_UP, LOAD, ACCEPT;
    Prepares(n);
    SetsUp(Run(n, PREPARE).value);
    RunTogether(n, PREPARE, SET_UP);
    LoadRuns(Run(n, PREPARE + SET_UP).value);
    RunTogether(n, PREPARE + SET_UP, LOAD);
    AcceptRuns(Run(n, PREPARE + SET_UP + LOAD).value);
    RunTogether(n, PREPARE + SET_UP + LOAD, ACCEPT);
  }

  const ENTER_START: seq<Step> := [Call(Start), Read, Store(false), ClearCommand]

  lemma EntersStart(n: Node)
    requires Calm(n, n.kind, Ready)
    ensures Run(n, ENTER_START).Some?
    ensures
      var command := if n.kind == Encoder then RespStart else StartInputDone;
      Within(Run(n, ENTER_START).value, n, Issue(TaskStart, [command]), Starting, Quiet)
  {
    Nothing(n.returned);
    RunFour(n, Call(Start), Read, Store(false), ClearCommand);
  }

  /** The command is issued, answered and seen to be completed; the state is tested and written, and seen. */
  function Acknowledge(response: Message): seq<Step> {
    [Ioctl(true), Receive(response), Poll, Look] + [Reply, Poll]
  }

  lemma Acknowledges(n: Node, response: Message)
    requires n.pc == Issue(TaskStart, [response]) && n.state == Starting && n.handler == Quiet
    requires response == if n.kind == Encoder then RespStart else StartInputDone
    ensures Leads(n, Acknowledge(response), Running, Start)
  {
    RunFour(n, Ioctl(true), Receive(response), Poll, Look);
    var m := Run(n, [Ioctl(true), Receive(response), Poll, Look]).value;
    assert m.returned == n.returned && m.pc == WaitState(TaskStart);
    assert m.handler == Answering(response, Running, |n.writes|);
    LastReply(m);
    hide Apply, Enabled, Run;
    RunTogether(n, [Ioctl(true), Receive(response), Poll, Look], [Reply, Poll]);
  }

  lemma LastReply(n: Node)
    requires n.pc == WaitState(TaskStart) && n.handler.Answering? && n.handler.value == Running
    ensures Leads(n, [Reply, Poll], Running, Start)
  {
    RunTwo(n, Reply, Poll);
  }

  /** Start. That of a decoder starts the input only; the output comes up by itself. */
  function StartSteps(kind: Kind): seq<Step> {
    ENTER_START + Acknowledge(if kind == Encoder then RespStart else StartInputDone)
  }

  lemma StartRuns(n: Node)
    requires Calm(n, n.kind, Ready)
    ensures Leads(n, StartSteps(n.kind), Running, Start)
  {
    hide Run, ENTER_START, Acknowledge;
    EntersStart(n);
    var response := if n.kind == Encoder then RespStart else StartInputDone;
    Acknowledges(Run(n, ENTER_START).value, response);
    RunTogether(n, ENTER_START, Acknowledge(response));
  }

  /** A decoder's output is reconfigured, and started again, without a change of state. */
  const RECONFIGURE: seq<Step> :=
    [Receive(OutputReconfig), Look, Reconfigure(true, true), Receive(StartOutputDone)] + [Look, Reply]

  lemma ReconfigureRuns(n: Node)
    requires Calm(n, Decoder, Running)
    ensures Run(n, RECONFIGURE).Some? && Calm(Run(n, RECONFIGURE).value, Decoder, Running)
    ensures Run(n, RECONFIGURE).value.returned == n.returned
  {
    var first := [Receive(OutputReconfig), Look, Reconfigure(true, true), Receive(StartOutputDone)];
    RunFour(n, Receive(OutputReconfig), Look, Reconfigure(true, true), Receive(StartOutputDone));
    var m := Run(n, first).value;
    RunTwo(m, Look, Reply);
    RunTogether(n, first, [Look, Reply]);
  }

  const ENTER_STOP: seq<Step> := [Call(Stop), Read, Store(false), ClearCommand]

  lemma EntersStop(n: Node)
    requires Calm(n, n.kind, Running)
    ensures
      && Run(n, ENTER_STOP).Some?
      && var pc := if n.kind == Encoder then Issue(TaskStop, [RespStop])
                   else ClearDrain(TaskStop, [LastFlag, StopInputDone, StopOutputDone]);
      && Within(Run(n, ENTER_STOP).value, n, pc, Stopping, Quiet)
  {
    Nothing(n.returned);
    RunFour(n, Call(Stop), Read, Store(false), ClearCommand);
  }

  /** The rest of an encoder's Stop, whose response comes in time. */
  const STOP: seq<Step> := [Ioctl(true), Receive(RespStop), Look, Reply] + [Poll, Store(false)]

  lemma StopAnswered(n: Node)
    requires n.pc == Issue(TaskStop, [RespStop]) && n.state == Stopping && n.handler == Quiet
    ensures
      && var r := Run(n, [Ioctl(true), Receive(RespStop), Look, Reply]);
      && r.Some? && Within(r.value, n, Wait(TaskStop, [RespStop]), Ready, Quiet) && r.value.completed == Some(RespStop)
  {
    hide Apply, Enabled;
    DoIoctl(n);
    var n1 := Apply(n, Ioctl(true));
    DoReceive(n1, RespStop);
    var n2 := Apply(n1, Receive(RespStop));
    DoLook(n2);
    DoReply(Apply(n2, Look));
    RunFour(n, Ioctl(true), Receive(RespStop), Look, Reply);
  }

  lemma StopSeen(n: Node)
    requires n.pc == Wait(TaskStop, [RespStop]) && n.completed == Some(RespStop) && n.handler == Quiet
    ensures Leads(n, [Poll, Store(false)], Ready, Stop)
  {
    RunTwo(n, Poll, Store(false));
  }

  lemma StopsEncoder(n: Node)
    requires n.pc == Issue(TaskStop, [RespStop]) && n.state == Stopping && n.handler == Quiet
    ensures Leads(n, STOP, Ready, Stop)
  {
    hide Run;
    StopAnswered(n);
    StopSeen(Run(n, [Ioctl(true), Receive(RespStop), Look, Reply]).value);
    RunTogether(n, [Ioctl(true), Receive(RespStop), Look, Reply], [Poll, Store(false)]);
  }

  /** The rest of a decoder's: drained up to the last frame, then the input is stopped, then the output. */
  const DRAIN: seq<Step> := [ClearDrained, Ioctl(true), Receive(Drained), Receive(LastFlag)] + [Poll, Read]
  const STOP_INPUT: seq<Step> := [ClearCommand, Ioctl(true), Receive(StopInputDone), Poll]
  const STOP_OUTPUT: seq<Step> := [ClearCommand, Ioctl(true), Receive(StopOutputDone), Poll] + [Store(false)]

  lemma DrainAnswered(n: Node)
    requires n.pc == ClearDrain(TaskStop, [LastFlag, StopInputDone, StopOutputDone]) && n.handler == Quiet
    ensures
      && var r := Run(n, [ClearDrained, Ioctl(true), Receive(Drained), Receive(LastFlag)]);
      && r.Some? && r.value.completed == Some(LastFlag) && r.value.drained
      && Within(r.value, n, Wait(TaskStop, [LastFlag, StopInputDone, StopOutputDone]), n.state, Quiet)
  {
    RunFour(n, ClearDrained, Ioctl(true), Receive(Drained), Receive(LastFlag));
  }

  lemma DrainSeen(n: Node)
    requires n.pc == Wait(TaskStop, [LastFlag, StopInputDone, StopOutputDone]) && n.handler == Quiet
    requires n.completed == Some(LastFlag) && n.drained
    ensures
      && var r := Run(n, [Poll, Read]);
      && r.Some? && Within(r.value, n, Clear(TaskStop, [StopInputDone, StopOutputDone]), n.state, Quiet)
  {
    assert [LastFlag, StopInputDone, StopOutputDone][1..] == [StopInputDone, StopOutputDone];
    RunTwo(n, Poll, Read);
  }

  lemma DrainRuns(n: Node)
    requires n.pc == ClearDrain(TaskStop, [LastFlag, StopInputDone, StopOutputDone]) && n.handler == Quiet
    ensures Run(n, DRAIN).Some?
    ensures Within(Run(n, DRAIN).value, n, Clear(TaskStop, [StopInputDone, StopOutputDone]), n.state, Quiet)
  {
    hide Run;
    DrainAnswered(n);
    DrainSeen(Run(n, [ClearDrained, Ioctl(true), Receive(Drained), Receive(LastFlag)]).value);
    RunTogether(n, [ClearDrained, Ioctl(true), Receive(Drained), Receive(LastFlag)], [Poll, Read]);
  }

  lemma StopsInput(n: Node)
    requires n.pc == Clear(TaskStop, [StopInputDone, StopOutputDone]) && n.handler == Quiet
    ensures Run(n, STOP_INPUT).Some?
    ensures Within(Run(n, STOP_INPUT).value, n, Clear(TaskStop, [StopOutputDone]), n.state, Quiet)
  {
    assert [StopInputDone, StopOutputDone][1..] == [StopOutputDone];
    RunFour(n, ClearCommand, Ioctl(true), Receive(StopInputDone), Poll);
  }

  lemma StopsOutput(n: Node)
    requires n.pc == Clear(TaskStop, [StopOutputDone]) && n.handler == Quiet
    ensures Leads(n, STOP_OUTPUT, Ready, Stop)
  {
    hide Apply, Enabled;
    DoClear(n);
    var n1 := Apply(n, ClearCommand);
    DoIoctl(n1);
    var n2 := Apply(n1, Ioctl(true));
    DoReceive(n2, StopOutputDone);
    var n3 := Apply(n2, Receive(StopOutputDone));
    DoPoll(n3);
    DoStore(Apply(n3, Poll), false);
    RunFour(n, ClearCommand, Ioctl(true), Receive(StopOutputDone), Poll);
    RunSnoc(n, [ClearCommand, Ioctl(true), Receive(StopOutputDone), Poll], Store(false));
  }

  function StopSteps(kind: Kind): seq<Step> {
    if kind == Encoder then ENTER_STOP + STOP else ENTER_STOP + DRAIN + STOP_INPUT + STOP_OUTPUT
  }

  lemma StopRuns(n: Node)
    requires Calm(n, n.kind, Running)
    ensures Leads(n, StopSteps(n.kind), Ready, Stop)
  {
    hide Run, ENTER_STOP, STOP, DRAIN, STOP_INPUT, STOP_OUTPUT;
    EntersStop(n);
    if n.kind == Encoder {
      StopsEncoder(Run(n, ENTER_STOP).value);
      RunTogether(n, ENTER_STOP, STOP);
    } else {
      DrainRuns(Run(n, ENTER_STOP).value);
      RunTogether(n, ENTER_STOP, DRAIN);
      StopsInput(Run(n, ENTER_STOP + DRAIN).value);
      RunTogether(n, ENTER_STOP + DRAIN, STOP_INPUT);
      StopsOutput(Run(n, ENTER_STOP + DRAIN + STOP_INPUT).value);
      RunTogether(n, ENTER_STOP + DRAIN + STOP_INPUT, STOP_OUTPUT);
    }
  }

  /** DeInitialize of a ready node, whose release response is tested in DeInitializing. */
  const ENTER_RELEASE: seq<Step> := [Call(DeInitialize), Read, Read, Store(false)]
  const RELEASE: seq<Step> := [ClearCommand, Ioctl(true), Receive(RespRelease), Poll]
  const FREE: seq<Step> := [Look, Reply, Poll, Free(true)] + [Store(false)]
  const DEINITIALIZE: seq<Step> := ENTER_RELEASE + RELEASE + FREE

  lemma EntersRelease(n: Node)
    requires Calm(n, n.kind, Ready)
    ensures Run(n, ENTER_RELEASE).Some?
    ensures
      Within(Run(n, ENTER_RELEASE).value, n, Clear(TaskRelease(Caller), [RespRelease]), DeInitializing, Quiet)
  {
    Nothing(n.returned);
    RunFour(n, Call(DeInitialize), Read, Read, Store(false));
  }

  lemma ReleaseRuns(n: Node)
    requires n.pc == Clear(TaskRelease(Caller), [RespRelease]) && n.handler == Quiet
    ensures Run(n, RELEASE).Some?
    ensures Within(Run(n, RELEASE).value, n, WaitState(TaskRelease(Caller)), n.state, Looking(RespRelease))
  {
    RunFour(n, ClearCommand, Ioctl(true), Receive(RespRelease), Poll);
  }

  lemma FreeRuns(n: Node)
    requires n.pc == WaitState(TaskRelease(Caller)) && n.state == DeInitializing && n.handler == Looking(RespRelease)
    ensures Leads(n, FREE, Initial, DeInitialize)
  {
    hide Apply, Enabled;
    Nothing(n.returned);
    DoLook(n);
    var n1 := Apply(n, Look);
    DoReply(n1);
    var n2 := Apply(n1, Reply);
    DoPollState(n2);
    var n3 := Apply(n2, Poll);
    DoFree(n3, true);
    var n4 := Apply(n3, Free(true));
    DoStore(n4, false);
    RunFour(n, Look, Reply, Poll, Free(true));
    RunSnoc(n, [Look, Reply, Poll, Free(true)], Store(false));
  }

  lemma DeInitializeRuns(n: Node)
    requires Calm(n, n.kind, Ready)
    ensures Leads(n, DEINITIALIZE, Initial, DeInitialize)
  {
    hide Run, ENTER_RELEASE, RELEASE, FREE;
    EntersRelease(n);
    ReleaseRuns(Run(n, ENTER_RELEASE).value);
    RunTogether(n, ENTER_RELEASE, RELEASE);
    FreeRuns(Run(n, ENTER_RELEASE + RELEASE).value);
    RunTogether(n, ENTER_RELEASE + RELEASE, FREE);
  }

  // ---- whole lives ----

  /** Everything succeeds, one call after the other; the output of a decoder is reconfigured while it runs. */
  function Life(kind: Kind): seq<Step> {
    INITIALIZE + StartSteps(kind) + (if kind == Decoder then RECONFIGURE else []) + StopSteps(kind) + DEINITIALIZE
  }

  const ALL_OK: seq<(Api, Status)> := [(Init, Ok), (Start, Ok), (Stop, Ok), (DeInitialize, Ok)]

  lemma GoesOn(n: Node, done: seq<Step>, more: seq<Step>, state: ObjectState, api: Api)
    requires Run(n, done).Some? && Leads(Run(n, done).value, more, state, api)
    ensures Run(n, done + more).Some? && Calm(Run(n, done + more).value, Run(n, done).value.kind, state)
    ensures Run(n, done + more).value.returned == Run(n, done).value.returned + [(api, Ok)]
  {
    RunTogether(n, done, more);
  }

  /** Initialize, Start, Stop and DeInitialize of a new node of either kind succeed one after the other, and leave it
      Initial, so that it can be initialised again. */
  lemma LifeRuns(kind: Kind)
    ensures
      && var r := Run(NewNode(kind), Life(kind));
      && r.Some? && Calm(r.value, kind, Initial) && r.value.returned == ALL_OK
  {
    var n := NewNode(kind);
    hide INITIALIZE, StartSteps, RECONFIGURE, StopSteps, DEINITIALIZE;
    assert Run(n, []) == Some(n);
    assert [] + INITIALIZE == INITIALIZE;
    InitializeRuns(n);
    hide Run, Leads;
    GoesOn(n, [], INITIALIZE, Ready, Init);
    StartRuns(Run(n, INITIALIZE).value);
    GoesOn(n, INITIALIZE, StartSteps(kind), Running, Start);
    var s := INITIALIZE + StartSteps(kind);
    if kind == Decoder {
      ReconfigureRuns(Run(n, s).value);
      RunTogether(n, s, RECONFIGURE);
      s := s + RECONFIGURE;
    } else {
      assert s + [] == s;
    }
    StopRuns(Run(n, s).value);
    GoesOn(n, s, StopSteps(kind), Ready, Stop);
    DeInitializeRuns(Run(n, s + StopSteps(kind)).value);
    GoesOn(n, s + StopSteps(kind), DEINITIALIZE, Initial, DeInitialize);
    assert [] + [(Init, Ok)] + [(Start, Ok)] + [(Stop, Ok)] + [(DeInitialize, Ok)] == ALL_OK;
  }
}
