/** When a video node runs, and when it accepts frames. */
module VidcLifecycleProofs {
  import opened QCDefs
  import opened VidcLifecycleSpec

  // ---- the writes of the state ----

  /** The application gave up a Start. */
  predicate FailedStart(w: Write) { w.cause == ByFailure(Start) && w.value == Error }

  /** No message wrote the state from write i on. */
  ghost predicate ApplicationOnly(writes: seq<Write>, i: nat) {
    forall j :: i <= j < |writes| ==> !writes[j].cause.ByMessage?
  }

  /** A test made when seen writes were done found the Starting of a Start; if anything was written since, by the
      application thread alone, that Start was given up first. */
  ghost predicate FoundStarting(writes: seq<Write>, seen: nat) {
    && 0 < seen <= |writes|
    && writes[seen - 1].value == Starting && writes[seen - 1].cause == ByCall(Start)
    && (seen < |writes| ==> FailedStart(writes[seen]) && LastValue(writes) in {Error, Initial, Initializing})
    && ApplicationOnly(writes, seen)
  }

  /** The last write is the acknowledgement of a Start. */
  ghost predicate Acknowledged(writes: seq<Write>) {
    && writes != []
    && var w := writes[|writes| - 1];
    && w.cause == ByMessage(RespStart) && w.value == Running && w.seen < |writes|
    && FoundStarting(writes[..|writes| - 1], w.seen)
  }

  /** No other write came between the test and the write of the callback. */
  predicate Timely(writes: seq<Write>) {
    writes != [] && writes[|writes| - 1].seen == |writes| - 1
  }

  ghost predicate Forced(kind: Kind, writes: seq<Write>) {
    && writes != []
    && var w := writes[|writes| - 1];
    && w.cause.ByMessage? && Forces(kind, w.cause.msg) && w.value == Running
  }

  /** No pausing state is ever written, Starting only by Start, and Running as above. */
  ghost predicate Lawful(kind: Kind, writes: seq<Write>) {
    writes == [] ||
    var w := writes[|writes| - 1];
    && Lawful(kind, writes[..|writes| - 1])
    && w.value !in {Pausing, Pause, Resuming}
    && (w.value == Starting ==> w.cause == ByCall(Start))
    && (w.value == Running ==> Acknowledged(writes) || Forced(kind, writes))
  }

  function LastValue(writes: seq<Write>): ObjectState {
    if writes == [] then Initial else writes[|writes| - 1].value
  }

  // ---- the two threads ----

  /** The application is inside a Start after its write of Starting. */
  predicate StartUnderWay(pc: Pc) {
    && (pc.Clear? || pc.ClearDrain? || pc.Issue? || pc.Wait? || pc.CheckDrain? || pc.WaitState? || pc.Broken?)
    && pc.task == TaskStart
  }

  ghost predicate PcOk(pc: Pc, writes: seq<Write>) {
    LastValue(writes) == Starting ==> StartUnderWay(pc)
  }

  ghost predicate HandlerOk(kind: Kind, h: Handler, writes: seq<Write>) {
    h.Answering? ==>
      && h.seen <= |writes| && ApplicationOnly(writes, h.seen)
      && h.value !in {Starting, Pausing, Pause, Resuming}
      && (h.value == Running <==>
           Forces(kind, h.msg) || (h.msg == RespStart && LastValue(writes[..h.seen]) == Starting))
      && (h.value == Running && !Forces(kind, h.msg) ==> FoundStarting(writes, h.seen))
  }

  /** The answer to a Start is pending, and the state was written since the test. */
  predicate Pending(kind: Kind, h: Handler, writes: seq<Write>) {
    h.Answering? && h.value == Running && !Forces(kind, h.msg) && h.seen < |writes|
  }

  /** Where the application can be then: without the event thread it gets no further than an Initialize. */
  predicate LatePc(pc: Pc) {
    match pc
    case Enter(t) => t == TaskInit
    case Clear(t, _) => t == TaskInit
    case ClearDrain(t, _) => t == TaskInit
    case Issue(t, _) => t == TaskInit
    case Wait(t, _) => t == TaskInit
    case CheckDrain(t, _) => t == TaskInit
    case WaitState(t) => t == TaskInit
    case Broken(t) => t == TaskInit
    case Finish => false
    case _ => true
  }

  ghost predicate LateOk(kind: Kind, pc: Pc, h: Handler, writes: seq<Write>) {
    Pending(kind, h, writes) ==> LatePc(pc) && LastValue(writes) in {Error, Initial, Initializing}
  }

  ghost predicate Inv(n: Node) {
    && n.state == LastValue(n.writes)
    && Lawful(n.kind, n.writes)
    && PcOk(n.pc, n.writes)
    && HandlerOk(n.kind, n.handler, n.writes)
    && LateOk(n.kind, n.pc, n.handler, n.writes)
  }

  // ---- steps ----

  lemma LawfulAppend(kind: Kind, writes: seq<Write>, w: Write)
    requires Lawful(kind, writes) && w.value !in {Pausing, Pause, Resuming}
    requires w.value == Starting ==> w.cause == ByCall(Start)
    requires w.value == Running ==> Acknowledged(writes + [w]) || Forced(kind, writes + [w])
    ensures Lawful(kind, writes + [w]) && LastValue(writes + [w]) == w.value
  {
    assert (writes + [w])[..|writes|] == writes;
  }

  lemma {:induction false} NeverPausing(kind: Kind, writes: seq<Write>)
    requires Lawful(kind, writes)
    ensures LastValue(writes) !in {Pausing, Pause, Resuming}
    ensures LastValue(writes) == Starting ==> writes[|writes| - 1].cause == ByCall(Start)
  {
  }

  /** The application writes while the event thread is between test and write. */
  lemma AnswerStands(kind: Kind, h: Handler, writes: seq<Write>, w: Write)
    requires HandlerOk(kind, h, writes) && !w.cause.ByMessage?
    requires LastValue(writes) == Starting ==> FailedStart(w)
    requires Pending(kind, h, writes + [w]) ==> w.value in {Error, Initial, Initializing}
    ensures HandlerOk(kind, h, writes + [w])
  {
    if h.Answering? {
      assert (writes + [w])[..h.seen] == writes[..h.seen];
    }
  }

  /** An answer to a Start that nothing was written after: the state is still Starting. */
  lemma FreshAnswer(n: Node)
    requires Inv(n) && n.handler.Answering? && n.handler.value == Running && !Forces(n.kind, n.handler.msg)
    requires n.handler.seen >= |n.writes|
    ensures n.state == Starting
  {
    assert n.writes[..|n.writes|] == n.writes;
  }

  /** A write of the application thread. */
  lemma StoreKeeps(n: Node, more: bool)
    requires Inv(n) && Writing(n.pc)
    ensures Inv(StoreStep(n, more)) && StoreStep(n, more).kind == n.kind
  {
    hide Lawful, HandlerOk;
    var w := Write(StoreCause(n.pc), StoreValue(n.pc), |n.writes|);
    LawfulAppend(n.kind, n.writes, w);
    if Pending(n.kind, n.handler, n.writes + [w]) && !Pending(n.kind, n.handler, n.writes) {
      FreshAnswer(n);
    }
    AnswerStands(n.kind, n.handler, n.writes, w);
  }

  /** The test of the event thread settles what it will write. */
  lemma LookKeeps(n: Node)
    requires Inv(n) && n.handler.Looking?
    ensures Inv(LookStep(n))
  {
    NeverPausing(n.kind, n.writes);
    assert n.writes[..|n.writes|] == n.writes;
  }

  lemma ReplyKeeps(n: Node)
    requires Inv(n) && n.handler.Answering?
    ensures Inv(Apply(n, Reply))
  {
    var w := Write(ByMessage(n.handler.msg), n.handler.value, n.handler.seen);
    assert (n.writes + [w])[..|n.writes|] == n.writes;
    LawfulAppend(n.kind, n.writes, w);
  }

  lemma StepKeeps(n: Node, step: Step)
    requires Inv(n) && Enabled(n, step)
    ensures Inv(Apply(n, step)) && Apply(n, step).kind == n.kind
  {
    match step
    case Store(more) => StoreKeeps(n, more);
    case Look => LookKeeps(n);
    case Reply => ReplyKeeps(n);
    case Reconfigure(started, ok) => ReconfigureKeeps(n, started, ok);
    case _ => OthersKeep(n, step);
  }

  lemma ReconfigureKeeps(n: Node, started: bool, ok: bool)
    requires Inv(n) && Enabled(n, Reconfigure(started, ok))
    ensures Inv(Apply(n, Reconfigure(started, ok)))
  {
    hide Lawful;
  }

  lemma OthersKeep(n: Node, step: Step)
    requires Inv(n) && Enabled(n, step)
    requires !step.Store? && !step.Look? && !step.Reply? && !step.Reconfigure?
    ensures Inv(Apply(n, step)) && Apply(n, step).kind == n.kind
  {
    hide Lawful, HandlerOk;
    assert step.Receive? ==> HandlerOk(n.kind, Apply(n, step).handler, n.writes) by {
      NotAnswering(n.kind, n.writes);
    }
  }

  lemma NotAnswering(kind: Kind, writes: seq<Write>)
    ensures forall h: Handler :: !h.Answering? ==> HandlerOk(kind, h, writes)
  {
  }

  lemma NewNodeOk(kind: Kind)
    ensures Inv(NewNode(kind))
  {
  }

  /** The invariant holds over every interleaving. */
  lemma {:induction false} Safety(n: Node, steps: seq<Step>)
    requires Inv(n) && Run(n, steps).Some?
    ensures Inv(Run(n, steps).value) && Run(n, steps).value.kind == n.kind
    decreases |steps|
  {
    hide Inv, Apply, Enabled;
    if steps != [] {
      StepKeeps(n, steps[0]);
      Safety(Apply(n, steps[0]), steps[1..]);
    }
  }

  // ---- when a node accepts frames ----

  /** For every interleaving, an encoder accepts a frame exactly while the last thing written to its state is the
      acknowledgement of a Start: no Stop, fatal event, refused or failed call, or response in a wrong state came
      since. The Start was still under way exactly when the callback's test and write were not separated by another
      write; otherwise that Start had already failed. */
  lemma EncoderAcceptsIff(steps: seq<Step>, size: nat, requireNonZeroSize: bool)
    requires Run(NewNode(Encoder), steps).Some?
    ensures
      && var n := Run(NewNode(Encoder), steps).value;
      && n.state !in {Pausing, Pause, Resuming}
      && (Accepts(n.state, true, size, requireNonZeroSize) <==>
           (size != 0 || !requireNonZeroSize) && Acknowledged(n.writes))
      && (Acknowledged(n.writes) ==>
           var k, seen := |n.writes| - 1, n.writes[|n.writes| - 1].seen;
           && (Timely(n.writes) <==> n.writes[k - 1].value == Starting)
           && (!Timely(n.writes) <==> seen < k && FailedStart(n.writes[seen])))
  {
    NewNodeOk(Encoder);
    Safety(NewNode(Encoder), steps);
    var n := Run(NewNode(Encoder), steps).value;
    NeverPausing(n.kind, n.writes);
  }

  /** A decoder accepts a frame exactly while the last thing written is that, or one of its two start-done messages,
      in whatever state. */
  lemma DecoderAcceptsIff(steps: seq<Step>, size: nat, requireNonZeroSize: bool)
    requires Run(NewNode(Decoder), steps).Some?
    ensures
      && var n := Run(NewNode(Decoder), steps).value;
      && n.state !in {Pausing, Pause, Resuming}
      && (Accepts(n.state, true, size, requireNonZeroSize) <==>
           (size != 0 || !requireNonZeroSize) && (Acknowledged(n.writes) || Forced(Decoder, n.writes)))
  {
    NewNodeOk(Decoder);
    Safety(NewNode(Decoder), steps);
    NeverPausing(Decoder, Run(NewNode(Decoder), steps).value.writes);
  }

  /** What the event thread is about to write is Running if and only if the message is one of the decoder's two, or the
      start response whose test found Starting. (Resuming is unreachable.) */
  lemma EntersRunningIff(kind: Kind, steps: seq<Step>)
    requires Run(NewNode(kind), steps).Some? && Run(NewNode(kind), steps).value.handler.Answering?
    ensures
      && var n := Run(NewNode(kind), steps).value;
      && var h := n.handler;
      && h.seen <= |n.writes|
      && (h.value == Running <==>
           Forces(kind, h.msg) || (h.msg == RespStart && LastValue(n.writes[..h.seen]) == Starting))
  {
    NewNodeOk(kind);
    Safety(NewNode(kind), steps);
  }

  // ---- runs ----

  lemma {:induction false} RunSnoc(n: Node, steps: seq<Step>, step: Step)
    requires Run(n, steps).Some? && Enabled(Run(n, steps).value, step)
    ensures Run(n, steps + [step]) == Some(Apply(Run(n, steps).value, step))
    decreases |steps|
  {
    hide Apply, Enabled;
    if steps != [] {
      RunSnoc(Apply(n, steps[0]), steps[1..], step);
      assert (steps + [step])[1..] == steps[1..] + [step];
    } else {
      assert [step][1..] == [];
    }
  }

  lemma RunTwo(n: Node, a: Step, b: Step)
    requires Enabled(n, a) && Enabled(Apply(n, a), b)
    ensures Run(n, [a, b]) == Some(Apply(Apply(n, a), b))
  {
    hide Apply, Enabled;
    assert Run(n, []) == Some(n);
    RunSnoc(n, [], a);
    RunSnoc(n, [] + [a], b);
    assert [] + [a] + [b] == [a, b];
  }

  lemma RunFour(n: Node, a: Step, b: Step, c: Step, d: Step)
    requires Enabled(n, a) && Enabled(Apply(n, a), b)
    requires Enabled(Apply(Apply(n, a), b), c) && Enabled(Apply(Apply(Apply(n, a), b), c), d)
    ensures Run(n, [a, b, c, d]) == Some(Apply(Apply(Apply(Apply(n, a), b), c), d))
  {
    hide Apply, Enabled;
    RunTwo(n, a, b);
    RunSnoc(n, [a, b], c);
    RunSnoc(n, [a, b] + [c], d);
    assert [a, b] + [c] + [d] == [a, b, c, d];
  }

  // The steps one by one.

  lemma DoStore(n: Node, more: bool)
    requires Writing(n.pc)
    ensures Enabled(n, Store(more)) && Apply(n, Store(more)) == StoreStep(n, more)
  {
  }

  lemma DoIoctl(n: Node)
    requires n.pc.Issue?
    ensures Enabled(n, Ioctl(true)) && Apply(n, Ioctl(true)) == n.(pc := Wait(n.pc.task, n.pc.todo))
  {
  }

  lemma DoClear(n: Node)
    requires n.pc.Clear? && n.pc.todo != []
    ensures Enabled(n, ClearCommand)
    ensures Apply(n, ClearCommand) == n.(completed := None, pc := ClearedPc(n.pc.task, n.pc.todo))
  {
  }

  lemma DoPoll(n: Node)
    requires n.pc.Wait? && n.pc.todo != [] && n.completed == Some(n.pc.todo[0]) && n.pc.todo[0] != LastFlag
    ensures Enabled(n, Poll) && Apply(n, Poll) == n.(pc := NextPc(n.pc.task, n.pc.todo))
  {
  }

  lemma DoPollState(n: Node)
    requires n.pc.WaitState? && n.state == Awaited(n.pc.task)
    ensures Enabled(n, Poll)
    ensures Apply(n, Poll) == n.(pc := WaitedPc(n.pc.task), returned := n.returned + WaitedReturn(n.pc.task))
  {
  }

  lemma DoGiveUp(n: Node)
    requires n.pc.Wait? || n.pc.WaitState?
    ensures Enabled(n, GiveUp)
    ensures Apply(n, GiveUp) == n.(pc := if n.pc.Wait? then FailedPc(n.pc.task) else Broken(n.pc.task))
  {
  }

  lemma DoReceive(n: Node, msg: Message)
    requires n.handler.Quiet?
    ensures Enabled(n, Receive(msg)) && Apply(n, Receive(msg)) == ReceiveStep(n, msg)
  {
  }

  lemma DoLook(n: Node)
    requires n.handler.Looking?
    ensures Enabled(n, Look) && Apply(n, Look) == LookStep(n)
  {
  }

  lemma DoReply(n: Node)
    requires n.handler.Answering?
    ensures Enabled(n, Reply)
    ensures Apply(n, Reply) ==
      n.(state := n.handler.value, handler := Quiet,
         writes := n.writes + [Write(ByMessage(n.handler.msg), n.handler.value, n.handler.seen)])
  {
  }

  lemma DoFree(n: Node, ok: bool)
    requires n.pc.Freeing?
    ensures Enabled(n, Free(ok))
    ensures Apply(n, Free(ok)) == n.(pc := if ok then Freed(n.pc.from) else Refuse(n.pc.from, Status.Fail))
  {
  }

  /** DeInitialize is refused exactly outside Ready and Error, and a refused call puts the node into Error: a running
      node stops accepting frames. */
  lemma RefusedDeInitialize(n: Node)
    requires n.pc.Idle?
    ensures
      && var r := Run(n, [Call(DeInitialize), Read]);
      && r.Some? && (r.value.pc == Test(TaskRelease(Caller), 1) <==> n.state != Ready)
    ensures n.state !in {Ready, Error} ==>
      && var r := Run(n, [Call(DeInitialize), Read, Read, Store(false)]);
      && r.Some? && r.value.returned == n.returned + [(DeInitialize, BadState)]
      && r.value.state == Error && forall size, nonZero :: !Accepts(r.value.state, true, size, nonZero)
  {
    RunTwo(n, Call(DeInitialize), Read);
    if n.state !in {Ready, Error} {
      RunFour(n, Call(DeInitialize), Read, Read, Store(false));
    }
  }

  /** A second Initialize is refused, and puts the node into Error as well. */
  lemma RefusedInitialize(n: Node)
    requires n.pc.Idle? && n.state != Initial
    ensures
      && var r := Run(n, [Call(Init), Local(true), Read] + [Store(false), Store(false)]);
      && r.Some? && r.value.returned == n.returned + [(Init, BadState)] && r.value.state == Error
  {
    var refused := n.(pc := Failing(false, BadState));
    Nothing(n.returned);
    RunThree(n, Call(Init), Local(true), Read);
    assert Run(n, [Call(Init), Local(true), Read]) == Some(refused);
    RunTwo(refused, Store(false), Store(false));
    RunTogether(n, [Call(Init), Local(true), Read], [Store(false), Store(false)]);
  }

  /** From a new encoder to an acknowledged Initialize, and on to a Start whose response arrives in time, is tested in
      time, and is written too late. */
  const CONFIGURED: seq<Step> := [Call(Init), Local(true), Read, Local(true)]
  const LOADING: seq<Step> := [Store(false), Local(true), ClearCommand, Ioctl(true)]
  const LOADED: seq<Step> := [Receive(RespLoad), Look, Reply, Poll]
  const INITIALIZED: seq<Step> := CONFIGURED + LOADING + LOADED + [Poll, Local(true)]
  const STARTED: seq<Step> := [Call(Start), Read, Store(false), ClearCommand]
  const RESPONDED: seq<Step> := [Ioctl(true), Receive(RespStart), Poll, Look]
  const LATE_START: seq<Step> := INITIALIZED + STARTED + RESPONDED + [GiveUp, Store(false), Reply]

  function ConfiguredEncoder(): Node { NewNode(Encoder).(pc := Enter(TaskInit)) }

  function LoadingEncoder(): Node {
    ConfiguredEncoder().(state := Initializing, writes := [Write(ByCall(Init), Initializing, 0)],
                         pc := Wait(TaskInit, [RespLoad]))
  }

  function LoadedEncoder(): Node {
    LoadingEncoder().(state := Ready, completed := Some(RespLoad), pc := WaitState(TaskInit),
                      writes := [Write(ByCall(Init), Initializing, 0), Write(ByMessage(RespLoad), Ready, 1)])
  }

  function ReadyEncoder(): Node { LoadedEncoder().(pc := Idle, returned := [(Init, Ok)]) }

  lemma Nothing(returned: seq<(Api, Status)>)
    ensures returned + [] == returned
  {
  }

  lemma Configures()
    ensures Run(NewNode(Encoder), CONFIGURED) == Some(ConfiguredEncoder())
  {
    Nothing([]);
    RunFour(NewNode(Encoder), Call(Init), Local(true), Read, Local(true));
  }

  lemma Loads()
    ensures Run(ConfiguredEncoder(), LOADING) == Some(LoadingEncoder())
  {
    var n := ConfiguredEncoder();
    assert n.writes + LoadingEncoder().writes == LoadingEncoder().writes;
    assert Apply(n, Store(false)) == LoadingEncoder().(pc := Setup);
    RunFour(n, Store(false), Local(true), ClearCommand, Ioctl(true));
  }

  lemma IsLoaded()
    ensures Run(LoadingEncoder(), LOADED) == Some(LoadedEncoder())
  {
    var n := LoadingEncoder();
    var tested := n.(completed := Some(RespLoad), handler := Answering(RespLoad, Ready, 1));
    RunTwo(n, Receive(RespLoad), Look);
    assert Run(n, [Receive(RespLoad), Look]) == Some(tested);
    assert n.writes + [Write(ByMessage(RespLoad), Ready, 1)] == LoadedEncoder().writes;
    RunTwo(tested, Reply, Poll);
    RunTogether(n, [Receive(RespLoad), Look], [Reply, Poll]);
    assert [Receive(RespLoad), Look] + [Reply, Poll] == LOADED;
  }

  lemma Accepted()
    ensures Run(LoadedEncoder(), [Poll, Local(true)]) == Some(ReadyEncoder())
  {
    Nothing([]);
    assert LoadedEncoder().returned + [(Init, Ok)] == [(Init, Ok)];
    RunTwo(LoadedEncoder(), Poll, Local(true));
  }

  lemma Initializes()
    ensures Run(NewNode(Encoder), INITIALIZED) == Some(ReadyEncoder())
  {
    hide Apply, Enabled, ConfiguredEncoder, LoadingEncoder, LoadedEncoder, ReadyEncoder, NewNode, Run;
    Configures();
    Loads();
    IsLoaded();
    Accepted();
    RunTogether(NewNode(Encoder), CONFIGURED, LOADING);
    RunTogether(NewNode(Encoder), CONFIGURED + LOADING, LOADED);
    RunTogether(NewNode(Encoder), CONFIGURED + LOADING + LOADED, [Poll, Local(true)]);
  }

  /** A reachable encoder that accepts frames although the call of Start failed: the response is tested before the
      call gives up and written after it wrote Error. */
  lemma LateStart()
    ensures
      && var r := Run(NewNode(Encoder), LATE_START);
      && r.Some? && r.value.returned == [(Init, Ok), (Start, Status.Fail)] && r.value.pc == Idle
      && Accepts(r.value.state, true, 1, true) && Acknowledged(r.value.writes) && !Timely(r.value.writes)
  {
    var start := NewNode(Encoder);
    Initializes();
    Starts();
    IsTested();
    GivesUpAndRuns();
    hide Apply, Enabled, Acknowledged, Run, TestedEncoder, ReadyEncoder, StartingEncoder;
    RunTogether(start, INITIALIZED, STARTED);
    RunTogether(start, INITIALIZED + STARTED, RESPONDED);
    RunTogether(start, INITIALIZED + STARTED + RESPONDED, [GiveUp, Store(false), Reply]);
  }

  /** The encoder waits for Running; the event thread has found Starting. */
  function TestedEncoder(): Node {
    var n := ReadyEncoder();
    n.(state := Starting, writes := n.writes + [Write(ByCall(Start), Starting, 2)], completed := Some(RespStart),
       pc := WaitState(TaskStart), handler := Answering(RespStart, Running, 3))
  }

  function StartingEncoder(): Node {
    TestedEncoder().(completed := None, pc := Issue(TaskStart, [RespStart]), handler := Quiet)
  }

  lemma Starts()
    ensures Run(ReadyEncoder(), STARTED) == Some(StartingEncoder())
  {
    Nothing(ReadyEncoder().returned);
    RunFour(ReadyEncoder(), Call(Start), Read, Store(false), ClearCommand);
  }

  lemma IsTested()
    ensures Run(StartingEncoder(), RESPONDED) == Some(TestedEncoder())
  {
    hide Apply, Enabled;
    var n := StartingEncoder();
    DoIoctl(n);
    var n1 := Apply(n, Ioctl(true));
    DoReceive(n1, RespStart);
    var n2 := Apply(n1, Receive(RespStart));
    DoPoll(n2);
    DoLook(Apply(n2, Poll));
    RunFour(n, Ioctl(true), Receive(RespStart), Poll, Look);
  }

  lemma GivesUpAndRuns()
    ensures
      && var r := Run(TestedEncoder(), [GiveUp, Store(false), Reply]);
      && r.Some? && r.value.returned == [(Init, Ok), (Start, Status.Fail)] && r.value.pc == Idle
      && Accepts(r.value.state, true, 1, true) && Acknowledged(r.value.writes) && !Timely(r.value.writes)
  {
    var n := TestedEncoder();
    DoGiveUp(n);
    DoStore(Apply(n, GiveUp), false);
    DoReply(Apply(Apply(n, GiveUp), Store(false)));
    RunThree(n, GiveUp, Store(false), Reply);
    hide Apply, Enabled, Run;
    var failed := n.writes + [Write(ByFailure(Start), Error, 3)];
    var w := Run(n, [GiveUp, Store(false), Reply]).value.writes;
    assert w == failed + [Write(ByMessage(RespStart), Running, 3)];
    assert w[..|w| - 1] == failed;
  }

  lemma {:induction false} RunTogether(n: Node, a: seq<Step>, b: seq<Step>)
    requires Run(n, a).Some?
    ensures Run(n, a + b) == Run(Run(n, a).value, b)
    decreases |a|
  {
    hide Apply, Enabled;
    if a == [] {
      assert a + b == b;
    } else {
      RunTogether(Apply(n, a[0]), a[1..], b);
      assert (a + b)[1..] == a[1..] + b;
    }
  }

  /** A decoder that met a fatal error accepts frames again after a late start-done message. */
  lemma DecoderRunsAfterFatal(n: Node)
    requires n.kind == Decoder && n.handler == Quiet
    ensures
      && var r := Run(n, [Receive(Fatal), Look, Reply] + [Receive(StartOutputDone), Look, Reply]);
      && r.Some? && Accepts(r.value.state, true, 1, true)
      && |r.value.writes| == |n.writes| + 2 && n.writes <= r.value.writes
      && r.value.writes[|n.writes|] == Write(ByMessage(Fatal), Error, |n.writes|)
      && r.value.writes[|n.writes| + 1] == Write(ByMessage(StartOutputDone), Running, |n.writes| + 1)
  {
    RunThree(n, Receive(Fatal), Look, Reply);
    var m := Run(n, [Receive(Fatal), Look, Reply]).value;
    RunThree(m, Receive(StartOutputDone), Look, Reply);
    RunTogether(n, [Receive(Fatal), Look, Reply], [Receive(StartOutputDone), Look, Reply]);
  }

  lemma RunThree(n: Node, a: Step, b: Step, c: Step)
    requires Enabled(n, a) && Enabled(Apply(n, a), b) && Enabled(Apply(Apply(n, a), b), c)
    ensures Run(n, [a, b, c]) == Some(Apply(Apply(Apply(n, a), b), c))
  {
    hide Apply, Enabled;
    RunTwo(n, a, b);
    RunSnoc(n, [a, b], c);
    assert [a, b] + [c] == [a, b, c];
  }
}
