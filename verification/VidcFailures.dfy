/** How every call of a node fails: what is written on the way, and what the caller is told. The event thread may be
    anywhere, since none of these steps is its own. */
module VidcFailures {
  import opened QCDefs
  import opened VidcLifecycleSpec
  import opened VidcLifecycleProofs
  import opened VidcLives

  // ---- messages ----

  /** Which messages complete a command, which of them the node's callback gets, and which only notes the drain. */
  lemma ReceiveIs(n: Node, msg: Message)
    requires n.handler.Quiet?
    ensures
      && var m := Apply(n, Receive(msg));
      && (msg !in {Fatal, RespPause, RespResume, OutputReconfig, Other, Drained} ==> m.completed == Some(msg))
      && (msg in {Fatal, RespPause, RespResume, OutputReconfig, Other, Drained} ==> m.completed == n.completed)
      && m.drained == (n.drained || msg == Drained)
      && m.handler == (if msg in {LastFlag, Drained, StopInputDone, StopOutputDone} then Quiet else Looking(msg))
      && m.state == n.state && m.pc == n.pc && m.writes == n.writes && m.returned == n.returned
  {
  }

  /** A reconfiguration whose start was issued forgets the completed command, also one that somebody waits for; one that
      fails leads to Error. */
  lemma ReconfigureIs(n: Node, started: bool, ok: bool)
    requires Enabled(n, Reconfigure(started, ok))
    ensures
      && var m := Apply(n, Reconfigure(started, ok));
      && (ok ==> started) && m.completed == (if started then None else n.completed)
      && m.handler == (if ok then Quiet else Answering(OutputReconfig, Error, |n.writes|))
      && m.state == n.state && m.pc == n.pc
  {
  }

  /** What was completed, or drained, before a command does not count for it. */
  lemma NothingStale(n: Node)
    ensures Enabled(n, ClearCommand) ==>
      && Apply(n, ClearCommand).completed == None
      && Apply(n, ClearCommand).pc.ClearDrain? == (n.pc.todo[0] == LastFlag)
    ensures Enabled(n, ClearDrained) ==> !Apply(n, ClearDrained).drained
  {
  }

  /** A frame is refused unless the node runs and the frame has a buffer and, if demanded, a size. */
  lemma AcceptsIff(state: ObjectState, hasBuffer: bool, size: nat, requireNonZeroSize: bool)
    ensures Accepts(state, hasBuffer, size, requireNonZeroSize) <==>
      state == Running && hasBuffer && !(size == 0 && requireNonZeroSize)
  {
  }

  // ---- DeInitialize, from wherever it is called ----

  /** The end of DeInitialize: back to the caller with a status, or into the rest of a failing Initialize. */
  predicate Released(m: Node, n: Node, from: From, status: Status) {
    && m.kind == n.kind && m.handler == n.handler && m.state == (if status == Ok then Initial else Error)
    && match from
       case Caller => m.pc == Idle && m.returned == n.returned + [(DeInitialize, status)]
       case PostInit => m.pc == Failing(true, Status.Fail) && m.returned == n.returned
       case CleanUp(s) => m.pc == LastFail(s) && m.returned == n.returned
  }

  function ReleaseSteps(freed: bool): seq<Step> { [Read, Read, Read, Free(freed)] + [Store(false)] }

  lemma BuffersFreed(n: Node, from: From, freed: bool)
    requires n.pc == Test(TaskRelease(from), 0) && n.state == Error
    ensures
      && var r := Run(n, [Read, Read, Read, Free(freed)]);
      && var pc := if freed then Freed(from) else Refuse(from, Status.Fail);
      && r.Some? && Within(r.value, n, pc, Error, n.handler)
  {
    VidcLives.Nothing(n.returned);
    RunFour(n, Read, Read, Read, Free(freed));
  }

  lemma ReleaseEnds(n: Node, from: From)
    requires n.pc == Freed(from)
    ensures Run(n, [Store(false)]).Some? && Released(Run(n, [Store(false)]).value, n, from, Ok)
    ensures Run(n, [Store(false)]).value.writes == n.writes + [Write(ByCallEnd(DeInitialize), Initial, |n.writes|)]
  {
    VidcLives.Nothing(n.returned);
    OneStep(n, Store(false));
  }

  /** From Error nothing is released but the buffers. */
  lemma ReleasesFromError(n: Node, from: From, freed: bool)
    requires n.pc == Test(TaskRelease(from), 0) && n.state == Error
    ensures Run(n, ReleaseSteps(freed)).Some?
    ensures Released(Run(n, ReleaseSteps(freed)).value, n, from, if freed then Ok else Status.Fail)
  {
    hide Run;
    BuffersFreed(n, from, freed);
    var m := Run(n, [Read, Read, Read, Free(freed)]).value;
    if freed {
      ReleaseEnds(m, from);
    } else {
      ReleaseRefuses(m, from, Status.Fail);
    }
    RunTogether(n, [Read, Read, Read, Free(freed)], [Store(false)]);
  }

  lemma ReleaseBreaks(n: Node, from: From, todo: seq<Message>)
    requires n.pc in {Issue(TaskRelease(from), todo), Wait(TaskRelease(from), todo), WaitState(TaskRelease(from))}
    ensures
      && var r := Run(n, [if n.pc.Issue? then Ioctl(false) else GiveUp, Store(false)]);
      && r.Some? && Within(r.value, n, Refuse(from, Status.Fail), Error, n.handler)
  {
    VidcLives.Nothing(n.returned);
    RunTwo(n, if n.pc.Issue? then Ioctl(false) else GiveUp, Store(false));
  }

  lemma ReleaseRefuses(n: Node, from: From, status: Status)
    requires n.pc == Refuse(from, status) && status != Ok
    ensures Run(n, [Store(false)]).Some? && Released(Run(n, [Store(false)]).value, n, from, status)
    ensures Run(n, [Store(false)]).value.writes == n.writes + [Write(ByFailure(DeInitialize), Error, |n.writes|)]
  {
    VidcLives.Nothing(n.returned);
    OneStep(n, Store(false));
  }

  /** A release command that is refused or not answered, or whose state is not seen. */
  lemma ReleaseFails(n: Node, from: From, todo: seq<Message>)
    requires n.pc in {Issue(TaskRelease(from), todo), Wait(TaskRelease(from), todo), WaitState(TaskRelease(from))}
    ensures
      && var r := Run(n, [if n.pc.Issue? then Ioctl(false) else GiveUp, Store(false)] + [Store(false)]);
      && r.Some? && Released(r.value, n, from, Status.Fail)
  {
    hide Run;
    ReleaseBreaks(n, from, todo);
    var first := [if n.pc.Issue? then Ioctl(false) else GiveUp, Store(false)];
    ReleaseRefuses(Run(n, first).value, from, Status.Fail);
    RunTogether(n, first, [Store(false)]);
  }

  /** The third test counts: a response that is written between the second and the third makes the node release its
      resources after all. */
  lemma ThirdTest(n: Node, from: From, msg: Message, seen: nat)
    requires n.pc == Test(TaskRelease(from), 1) && n.state == Error && n.handler == Answering(msg, Ready, seen)
    ensures
      && var r := Run(n, [Read, Reply, Read]);
      && r.Some? && r.value.pc == Enter(TaskRelease(from)) && r.value.state == Ready
  {
    RunThree(n, Read, Reply, Read);
  }

  // ---- Initialize ----

  /** Back from a failed Initialize. */
  predicate NotInitialized(m: Node, n: Node, status: Status) {
    m.kind == n.kind && m.pc == Idle && m.state == Error && m.returned == n.returned + [(Init, status)]
  }

  /** Error; then a DeInitialize if the base class was initialised; then Error again. */
  function WayOut(base: bool): seq<Step> {
    [Store(false)] + (if base then ReleaseSteps(true) else []) + [Store(false)]
  }

  lemma FirstError(n: Node, base: bool, status: Status)
    requires n.pc == Failing(base, status)
    ensures Run(n, [Store(false)]).Some?
    ensures
      var next := if base then Test(TaskRelease(CleanUp(status)), 0) else LastFail(status);
      Within(Run(n, [Store(false)]).value, n, next, Error, n.handler)
    ensures Run(n, [Store(true)]).Some? && Within(Run(n, [Store(true)]).value, n, n.pc, Error, n.handler)
  {
    VidcLives.Nothing(n.returned);
    assert Run(n, []) == Some(n);
    RunSnoc(n, [], Store(false));
    RunSnoc(n, [], Store(true));
    assert [] + [Store(false)] == [Store(false)] && [] + [Store(true)] == [Store(true)];
  }

  lemma LastError(n: Node, status: Status)
    requires n.pc == LastFail(status)
    ensures Run(n, [Store(false)]).Some? && NotInitialized(Run(n, [Store(false)]).value, n, status)
  {
    assert Run(n, []) == Some(n);
    RunSnoc(n, [], Store(false));
    assert [] + [Store(false)] == [Store(false)];
  }

  lemma GivesUp(n: Node, base: bool, status: Status)
    requires n.pc == Failing(base, status)
    ensures Run(n, WayOut(base)).Some? && NotInitialized(Run(n, WayOut(base)).value, n, status)
  {
    hide Run, ReleaseSteps;
    FirstError(n, base, status);
    if base {
      ReleasesFromError(Run(n, [Store(false)]).value, CleanUp(status), true);
      RunTogether(n, [Store(false)], ReleaseSteps(true));
      LastError(Run(n, [Store(false)] + ReleaseSteps(true)).value, status);
      RunTogether(n, [Store(false)] + ReleaseSteps(true), [Store(false)]);
    } else {
      assert [Store(false)] + [] == [Store(false)];
      LastError(Run(n, [Store(false)]).value, status);
      RunTogether(n, [Store(false)], [Store(false)]);
    }
  }

  /** A failed PostInit deinitialises the node itself, and the rest of Initialize does so again. */
  const POST_FAIL: seq<Step> := [Store(false)] + ReleaseSteps(true) + WayOut(true)

  lemma PostErrs(n: Node)
    requires n.pc == PostFail
    ensures Run(n, [Store(false)]).Some?
    ensures Within(Run(n, [Store(false)]).value, n, Test(TaskRelease(PostInit), 0), Error, n.handler)
  {
    VidcLives.Nothing(n.returned);
    assert Run(n, []) == Some(n);
    RunSnoc(n, [], Store(false));
    assert [] + [Store(false)] == [Store(false)];
  }

  lemma PostFails(n: Node)
    requires n.pc == PostFail
    ensures Run(n, POST_FAIL).Some? && NotInitialized(Run(n, POST_FAIL).value, n, Status.Fail)
  {
    hide Run, ReleaseSteps, WayOut;
    PostErrs(n);
    ReleasesFromError(Run(n, [Store(false)]).value, PostInit, true);
    RunTogether(n, [Store(false)], ReleaseSteps(true));
    GivesUp(Run(n, [Store(false)] + ReleaseSteps(true)).value, true, Status.Fail);
    RunTogether(n, [Store(false)] + ReleaseSteps(true), WayOut(true));
  }

  /** A bad configuration is refused in any state, before the base class is initialised. */
  lemma ConfigRefused(n: Node)
    requires n.pc == Idle
    ensures
      && var r := Run(n, [Call(Init), Local(false)]);
      && r.Some? && Within(r.value, n, Failing(false, BadArguments), n.state, n.handler)
  {
    VidcLives.Nothing(n.returned);
    RunTwo(n, Call(Init), Local(false));
  }

  /** Only a node in Initial is initialised. */
  lemma OnlyFromInitial(n: Node)
    requires n.pc == Idle
    ensures
      && var r := Run(n, [Call(Init), Local(true), Read]);
      && r.Some?
      && Within(r.value, n, if n.state == Initial then Check else Failing(false, BadState), n.state, n.handler)
  {
    VidcLives.Nothing(n.returned);
    RunThree(n, Call(Init), Local(true), Read);
  }

  /** Bad values in the configuration; a failed set-up of the driver or its buffers; a refused load command; one that is
      not answered in time, or whose state is not seen in time; buffers of the configuration that are no good. */
  lemma InitializeFails(n: Node, todo: seq<Message>)
    ensures n.pc == Check ==>
      && Run(n, [Local(false)]).Some?
      && Within(Run(n, [Local(false)]).value, n, Failing(true, BadArguments), n.state, n.handler)
    ensures n.pc == Setup ==>
      && Run(n, [Local(false)]).Some?
      && Within(Run(n, [Local(false)]).value, n, Failing(true, Status.Fail), n.state, n.handler)
    ensures n.pc == CheckBuffers ==>
      && Run(n, [Local(false)]).Some?
      && Within(Run(n, [Local(false)]).value, n, Failing(true, BadArguments), n.state, n.handler)
    ensures n.pc == Issue(TaskInit, todo) ==>
      Run(n, [Ioctl(false)]).Some? && Within(Run(n, [Ioctl(false)]).value, n, PostFail, n.state, n.handler)
    ensures n.pc == Wait(TaskInit, todo) ==>
      Run(n, [GiveUp]).Some? && Within(Run(n, [GiveUp]).value, n, PostFail, n.state, n.handler)
    ensures n.pc == WaitState(TaskInit) ==>
      Run(n, [GiveUp, Store(false)]).Some?
      && Within(Run(n, [GiveUp, Store(false)]).value, n, PostFail, Error, n.handler)
  {
    VidcLives.Nothing(n.returned);
    forall step | Enabled(n, step) ensures Run(n, [step]) == Some(Apply(n, step)) {
      OneStep(n, step);
    }
    if n.pc == WaitState(TaskInit) {
      RunTwo(n, GiveUp, Store(false));
    }
  }

  lemma OneStep(n: Node, step: Step)
    requires Enabled(n, step)
    ensures Run(n, [step]) == Some(Apply(n, step))
  {
    assert Run(n, []) == Some(n);
    RunSnoc(n, [], step);
    assert [] + [step] == [step];
  }

  // ---- Start and Stop ----

  /** Refused exactly outside Ready, or Running, without any write. */
  lemma StartStopRefused(n: Node, api: Api)
    requires n.pc == Idle && (api == Start || api == Stop)
    ensures
      && var r := Run(n, [Call(api), Read]);
      && var task := if api == Start then TaskStart else TaskStop;
      && var needed := if api == Start then Ready else Running;
      && r.Some? && r.value.state == n.state && r.value.writes == n.writes && r.value.handler == n.handler
      && r.value.pc == (if n.state == needed then Enter(task) else Idle)
      && r.value.returned == n.returned + (if n.state == needed then [] else [(api, BadState)])
  {
    RunTwo(n, Call(api), Read);
  }

  /** A command that is refused or not answered in time, or a Running that is not seen in time, ends the call with
      Error. */
  lemma StartStopFails(n: Node, t: Task, todo: seq<Message>)
    requires t == TaskStart || t == TaskStop
    requires n.pc in {Issue(t, todo), Wait(t, todo), WaitState(t)}
    ensures
      && var r := Run(n, [if n.pc.Issue? then Ioctl(false) else GiveUp, Store(false)]);
      && r.Some? && r.value.pc == Idle && r.value.state == Error && r.value.handler == n.handler
      && r.value.returned == n.returned + [(if t == TaskStart then Start else Stop, Status.Fail)]
  {
    RunTwo(n, if n.pc.Issue? then Ioctl(false) else GiveUp, Store(false));
  }

  /** A decoder whose last frame arrives without the drain having been reported does not stop, even if an earlier drain
      was. */
  lemma DrainMissing(n: Node, todo: seq<Message>)
    requires n.kind == Decoder && n.pc == ClearDrain(TaskStop, [LastFlag] + todo) && n.handler == Quiet
    ensures
      && var r := Run(n, [ClearDrained, Ioctl(true), Receive(LastFlag), Poll] + [Read, Store(false)]);
      && r.Some? && r.value.pc == Idle && r.value.state == Error
      && r.value.returned == n.returned + [(Stop, Status.Fail)]
  {
    Undrained(n, todo);
    var m := Run(n, [ClearDrained, Ioctl(true), Receive(LastFlag), Poll]).value;
    RunTwo(m, Read, Store(false));
    hide Run;
    RunTogether(n, [ClearDrained, Ioctl(true), Receive(LastFlag), Poll], [Read, Store(false)]);
  }

  lemma Undrained(n: Node, todo: seq<Message>)
    requires n.pc == ClearDrain(TaskStop, [LastFlag] + todo) && n.handler == Quiet
    ensures
      && var r := Run(n, [ClearDrained, Ioctl(true), Receive(LastFlag), Poll]);
      && r.Some? && !r.value.drained && Within(r.value, n, CheckDrain(TaskStop, [LastFlag] + todo), n.state, Quiet)
  {
    RunFour(n, ClearDrained, Ioctl(true), Receive(LastFlag), Poll);
  }
}
