/** What becomes of a fatal error, and of the response to a Stop, over every interleaving. */
module VidcFatalProofs {
  import opened QCDefs
  import opened VidcLifecycleSpec
  import opened VidcLifecycleProofs
  import Lives = VidcLives
  import Failures = VidcFailures

  // ---- where a fatal error stays ----

  /** The application is inside this task and has not given it up. */
  predicate Inside(pc: Pc) {
    pc.Clear? || pc.ClearDrain? || pc.Issue? || pc.Wait? || pc.CheckDrain? || pc.WaitState?
  }

  /** From here the application writes nothing but Error, as long as it finds Error and nobody calls DeInitialize.
      An Initialize that fails late calls it itself. */
  predicate Keeps(pc: Pc) {
    match pc
    case Idle => true
    case Config => true
    case Test(t, _) => !t.TaskRelease?
    case Broken(t) => t != TaskInit && t != TaskRelease(PostInit)
    case Failing(base, _) => !base
    case LastFail(_) => true
    case Refuse(from, _) => from != PostInit
    case _ => Inside(pc) && pc.task != TaskInit && pc.task != TaskStop && pc.task != TaskRelease(PostInit)
  }

  /** Nobody calls DeInitialize, and no message puts a decoder into Running. */
  predicate Calm(kind: Kind, step: Step) {
    step != Call(DeInitialize) && (step.Receive? ==> !Forces(kind, step.msg))
  }

  predicate CalmRun(kind: Kind, steps: seq<Step>) {
    forall step <- steps :: Calm(kind, step)
  }

  /** The event thread is about to write nothing but Error, as long as it finds Error. */
  predicate HandlerKeeps(kind: Kind, h: Handler) {
    match h
    case Looking(msg) => !Forces(kind, msg)
    case Answering(_, value, _) => value == Error
    case _ => true
  }

  /** Some write since m was not Error. */
  ghost predicate Overwritten(m: Node, r: Node) {
    exists j :: |m.writes| <= j < |r.writes| && r.writes[j].value != Error
  }

  lemma {:induction false} WritesGrow(n: Node, steps: seq<Step>)
    requires Run(n, steps).Some?
    ensures n.writes <= Run(n, steps).value.writes && n.returned <= Run(n, steps).value.returned
    ensures Run(n, steps).value.kind == n.kind
    decreases |steps|
  {
    if steps != [] {
      OneWrite(n, steps[0]);
      hide Apply, Enabled;
      WritesGrow(Apply(n, steps[0]), steps[1..]);
    }
  }

  /** A step writes once at most. */
  lemma OneWrite(n: Node, step: Step)
    requires Enabled(n, step)
    ensures
      && var m := Apply(n, step);
      && m.kind == n.kind && n.returned <= m.returned && n.writes <= m.writes
      && (if step.Store? || step.Reply? then
            |m.writes| == |n.writes| + 1 && m.writes[|n.writes|].value == m.state
          else m.writes == n.writes && m.state == n.state)
  {
  }

  /** What was overwritten in a run was so by its first step, or later. */
  lemma OverwrittenFirst(n: Node, steps: seq<Step>)
    requires steps != [] && Run(n, steps).Some?
    ensures
      && var m, r := Apply(n, steps[0]), Run(n, steps).value;
      && (Overwritten(n, r) <==> ((steps[0].Store? || steps[0].Reply?) && m.state != Error) || Overwritten(m, r))
  {
    OneWrite(n, steps[0]);
    WritesGrow(Apply(n, steps[0]), steps[1..]);
    hide Apply, Enabled;
    var m, r := Apply(n, steps[0]), Run(n, steps).value;
    if Overwritten(n, r) {
      var j :| |n.writes| <= j < |r.writes| && r.writes[j].value != Error;
      assert j < |m.writes| ==> m.writes[j] == r.writes[j];
    }
    if (steps[0].Store? || steps[0].Reply?) && m.state != Error {
      assert r.writes[|n.writes|] == m.writes[|n.writes|];
    }
  }

  lemma NotYet(n: Node)
    ensures !Overwritten(n, n)
  {
  }

  lemma KeepsStep(n: Node, step: Step)
    requires n.state == Error && Keeps(n.pc) && HandlerKeeps(n.kind, n.handler)
    requires Enabled(n, step) && Calm(n.kind, step)
    ensures
      && var m := Apply(n, step);
      && m.state == Error && Keeps(m.pc) && HandlerKeeps(m.kind, m.handler) && m.kind == n.kind
  {
  }

  /** Error stays over every run from such a place. */
  lemma {:induction false} KeepsRun(n: Node, steps: seq<Step>)
    requires n.state == Error && Keeps(n.pc) && HandlerKeeps(n.kind, n.handler)
    requires Run(n, steps).Some? && CalmRun(n.kind, steps)
    ensures Run(n, steps).value.state == Error && !Overwritten(n, Run(n, steps).value)
    decreases |steps|
  {
    if steps == [] {
      NotYet(n);
    } else {
      KeepsStep(n, steps[0]);
      OverwrittenFirst(n, steps);
      hide Apply, Enabled, Keeps, HandlerKeeps, Calm;
      KeepsRun(Apply(n, steps[0]), steps[1..]);
    }
  }

  // ---- where it can be lost ----

  /** What is left of a task's commands. */
  predicate Due(kind: Kind, t: Task, todo: seq<Message>) {
    || todo == Commands(kind, t)
    || (kind == Decoder && t == TaskStop && todo in {[StopInputDone, StopOutputDone], [StopOutputDone]})
  }

  predicate PcShape(kind: Kind, pc: Pc) {
    match pc
    case Clear(t, todo) => Due(kind, t, todo)
    case ClearDrain(t, todo) => Due(kind, t, todo) && todo[0] == LastFlag
    case Issue(t, todo) => Due(kind, t, todo)
    case Wait(t, todo) => Due(kind, t, todo)
    case CheckDrain(t, todo) => Due(kind, t, todo) && todo[0] == LastFlag
    case WaitState(t) => t != TaskStop
    case _ => true
  }

  lemma DueNext(kind: Kind, t: Task, todo: seq<Message>)
    requires Due(kind, t, todo)
    ensures todo != []
    ensures PcShape(kind, NextPc(t, todo)) && PcShape(kind, FailedPc(t))
  {
    if |todo| > 1 {
      if |todo| == 3 {
        assert todo[1..] == [StopInputDone, StopOutputDone];
      } else {
        assert todo[1..] == [StopOutputDone];
      }
    }
  }

  lemma DueAll(kind: Kind, t: Task)
    ensures Due(kind, t, Commands(kind, t))
  {
  }

  lemma ShapeStep(n: Node, step: Step)
    requires PcShape(n.kind, n.pc) && Enabled(n, step)
    ensures PcShape(n.kind, Apply(n, step).pc) && Apply(n, step).kind == n.kind
  {
    hide Due, Commands;
    match step
    case Store(_) =>
      if n.pc.Enter? {
        DueAll(n.kind, n.pc.task);
      }
    case Read =>
      if n.pc.CheckDrain? {
        DueNext(n.kind, n.pc.task, n.pc.todo);
      }
    case Poll =>
      if n.pc.Wait? {
        DueNext(n.kind, n.pc.task, n.pc.todo);
      }
    case Local(ok) =>
      DueAll(n.kind, TaskInit);
      assert Commands(n.kind, TaskInit) == [RespLoad] by { InitCommands(n.kind); }
    case _ =>
  }

  lemma InitCommands(kind: Kind)
    ensures Commands(kind, TaskInit) == [RespLoad]
  {
  }

  lemma {:induction false} ShapeRun(n: Node, steps: seq<Step>)
    requires PcShape(n.kind, n.pc) && Run(n, steps).Some?
    ensures PcShape(n.kind, Run(n, steps).value.pc) && Run(n, steps).value.kind == n.kind
    decreases |steps|
  {
    hide PcShape, Apply, Enabled;
    if steps != [] {
      ShapeStep(n, steps[0]);
      ShapeRun(Apply(n, steps[0]), steps[1..]);
    }
  }

  /** The way to a write that is not Error: a Stop succeeds, and an Initialize fails, so that it releases the node. */
  function Next(n: Node): Step {
    match n.pc
    case Check => Local(true)
    case Setup => Local(false)
    case CheckBuffers => Local(false)
    case Freeing(_) => Free(true)
    case Test(_, _) => Read
    case Clear(_, _) => ClearCommand
    case ClearDrain(_, _) => ClearDrained
    case Issue(t, _) => Ioctl(t == TaskStop)
    case Wait(t, todo) =>
      if t != TaskStop || todo == [] then GiveUp
      else if n.completed == Some(todo[0]) then Poll
      else Receive(todo[0])
    case CheckDrain(_, _) => if n.drained then Read else Receive(Drained)
    case WaitState(_) => GiveUp
    case _ => Store(false)
  }

  /** How many steps that takes at most. */
  function Far(n: Node): nat {
    match n.pc
    case Check => 2
    case Freeing(_) => 2
    case Test(_, which) => if which == 0 then 5 else if which == 1 then 4 else 3
    case Failing(_, _) => 6
    case PostFail => 6
    case CheckBuffers => 7
    case Refuse(_, _) => 7
    case Broken(_) => 8
    case WaitState(_) => 9
    case Setup => 13
    case Clear(t, todo) => if t == TaskStop then 10 * |todo| + 9 else 12
    case ClearDrain(t, todo) => if t == TaskStop then 10 * |todo| + 8 else 11
    case Issue(t, todo) => if t == TaskStop then 10 * |todo| + 7 else 10
    case Wait(t, todo) =>
      if t == TaskStop then 10 * |todo| + (if todo != [] && n.completed == Some(todo[0]) then 5 else 6) else 9
    case CheckDrain(t, todo) => if t == TaskStop then 10 * |todo| + (if n.drained then 3 else 4) else 9
    case _ => 1
  }

  /** No message is under way, or it is the last that the way needs. */
  predicate Open(n: Node) {
    || n.handler.Quiet? || n.pc.Finish?
    || (n.kind == Encoder && n.pc.Wait? && n.pc.task == TaskStop && n.completed == Some(RespStop))
  }

  predicate Losing(n: Node) {
    n.state == Error && !Keeps(n.pc) && PcShape(n.kind, n.pc) && Open(n)
  }

  /** On the way through Stop: before the wait, and from it on. */
  lemma IssueLoses(n: Node)
    requires Losing(n) && (n.pc.Clear? || n.pc.ClearDrain? || n.pc.Issue?) && n.pc.task == TaskStop
    ensures Enabled(n, Next(n)) && Calm(n.kind, Next(n)) && Apply(n, Next(n)).kind == n.kind
    ensures Losing(Apply(n, Next(n))) && Far(Apply(n, Next(n))) < Far(n)
  {
    DueNext(n.kind, TaskStop, n.pc.todo);
    hide Due, Commands;
  }

  lemma WaitLoses(n: Node)
    requires Losing(n) && (n.pc.Wait? || n.pc.CheckDrain? || n.pc.WaitState?) && n.pc.task == TaskStop
    ensures Enabled(n, Next(n)) && Calm(n.kind, Next(n)) && Apply(n, Next(n)).kind == n.kind
    ensures Losing(Apply(n, Next(n))) && Far(Apply(n, Next(n))) < Far(n)
  {
    DueNext(n.kind, TaskStop, n.pc.todo);
    StopMessages(n.kind, n.pc.todo);
    hide Due, Commands;
  }

  lemma StopMessages(kind: Kind, todo: seq<Message>)
    requires Due(kind, TaskStop, todo)
    ensures todo != [] && todo[0] in {RespStop, LastFlag, StopInputDone, StopOutputDone}
    ensures if kind == Encoder then todo == [RespStop] else todo[0] != RespStop
  {
  }

  lemma StopLoses(n: Node)
    requires Losing(n) && Inside(n.pc) && n.pc.task == TaskStop
    ensures Enabled(n, Next(n)) && Calm(n.kind, Next(n)) && Apply(n, Next(n)).kind == n.kind
    ensures Losing(Apply(n, Next(n))) && Far(Apply(n, Next(n))) < Far(n)
  {
    hide Losing, Next, Apply, Enabled, Far;
    if n.pc.Clear? || n.pc.ClearDrain? || n.pc.Issue? {
      IssueLoses(n);
    } else {
      WaitLoses(n);
    }
  }

  /** On the way out of Initialize. */
  lemma OthersLose(n: Node)
    requires Losing(n) && !(Inside(n.pc) && n.pc.task == TaskStop)
    ensures Enabled(n, Next(n)) && Calm(n.kind, Next(n)) && Apply(n, Next(n)).kind == n.kind
    ensures Apply(n, Next(n)).state != Error || (Losing(Apply(n, Next(n))) && Far(Apply(n, Next(n))) < Far(n))
  {
    if Inside(n.pc) && !n.pc.WaitState? {
      DueNext(n.kind, n.pc.task, n.pc.todo);
      assert n.pc.todo[0] in {RespLoad, RespRelease};
    }
    if Enabled(n, Next(n)) {
      ShapeStep(n, Next(n));
    }
    hide Due, Commands;
  }

  lemma NextLoses(n: Node)
    requires Losing(n)
    ensures Enabled(n, Next(n)) && Calm(n.kind, Next(n)) && Apply(n, Next(n)).kind == n.kind
    ensures Apply(n, Next(n)).state != Error || (Losing(Apply(n, Next(n))) && Far(Apply(n, Next(n))) < Far(n))
  {
    hide Losing, Next, Apply, Enabled, Far;
    if Inside(n.pc) && n.pc.task == TaskStop {
      StopLoses(n);
    } else {
      OthersLose(n);
    }
  }

  lemma Loses(n: Node) returns (steps: seq<Step>)
    requires Losing(n)
    ensures Run(n, steps).Some? && CalmRun(n.kind, steps) && Run(n, steps).value.state != Error
    decreases Far(n)
  {
    NextLoses(n);
    hide Apply, Enabled, Losing, Next, Far, Calm;
    var m := Apply(n, Next(n));
    steps := [];
    if m.state == Error {
      steps := Loses(m);
    } else {
      assert Run(m, []) == Some(m);
    }
    steps := [Next(n)] + steps;
    assert steps[1..] == if m.state == Error then steps[1..] else [];
  }

  // ---- fatal errors ----

  /** The event thread writes Error for a fatal error. */
  predicate WritesFatal(n: Node) { n.handler.Answering? && n.handler.msg == Fatal }

  predicate FatalIsError(h: Handler) { h.Answering? && h.msg == Fatal ==> h.value == Error }

  lemma {:induction false} FatalAnswers(n: Node, steps: seq<Step>)
    requires FatalIsError(n.handler) && Run(n, steps).Some?
    ensures FatalIsError(Run(n, steps).value.handler)
    decreases |steps|
  {
    if steps != [] {
      FatalAnswers(Apply(n, steps[0]), steps[1..]);
    }
  }

  lemma AfterFatal(kind: Kind, before: seq<Step>)
    requires Run(NewNode(kind), before).Some? && WritesFatal(Run(NewNode(kind), before).value)
    ensures
      && var m := Apply(Run(NewNode(kind), before).value, Reply);
      && m.kind == kind && m.state == Error && m.handler == Quiet && PcShape(kind, m.pc)
      && m.pc == Run(NewNode(kind), before).value.pc
  {
    ShapeRun(NewNode(kind), before);
    FatalAnswers(NewNode(kind), before);
  }

  /** Over every run, of either kind of node: when Error is written for a fatal error, it stays, whatever happens short
      of a call of DeInitialize (and of a decoder's start-done message), if and only if the application is at one of the
      places above. */
  lemma FatalKeptIff(kind: Kind, before: seq<Step>)
    requires Run(NewNode(kind), before).Some? && WritesFatal(Run(NewNode(kind), before).value)
    ensures
      && var m := Apply(Run(NewNode(kind), before).value, Reply);
      && m.state == Error
      && (Keeps(m.pc) <==>
           forall steps :: Run(m, steps).Some? && CalmRun(kind, steps) ==> Run(m, steps).value.state == Error)
  {
    AfterFatal(kind, before);
    var m := Apply(Run(NewNode(kind), before).value, Reply);
    hide Apply, Keeps, PcShape;
    if Keeps(m.pc) {
      forall steps | Run(m, steps).Some? && CalmRun(kind, steps) ensures Run(m, steps).value.state == Error {
        KeepsRun(m, steps);
      }
    } else {
      var steps := Loses(m);
      assert Run(m, steps).Some? && CalmRun(kind, steps) && Run(m, steps).value.state != Error;
    }
  }

  lemma EnterStep(n: Node, step: Step)
    requires n.state == Error && n.pc.Enter? && HandlerKeeps(n.kind, n.handler)
    requires Enabled(n, step) && Calm(n.kind, step)
    ensures
      && var m := Apply(n, step);
      && m.kind == n.kind && HandlerKeeps(m.kind, m.handler)
      && (if step.Store? then m.state != Error else m.state == Error && m.pc == n.pc)
  {
  }

  /** The application has tested the state and is about to write the entering state. */
  lemma {:induction false} EnterOverwrites(n: Node, steps: seq<Step>)
    requires n.state == Error && n.pc.Enter? && HandlerKeeps(n.kind, n.handler)
    requires Run(n, steps).Some? && CalmRun(n.kind, steps)
    ensures Overwritten(n, Run(n, steps).value) <==> exists step <- steps :: step.Store?
    decreases |steps|
  {
    if steps == [] {
      NotYet(n);
    } else {
      EnterStep(n, steps[0]);
      OverwrittenFirst(n, steps);
      hide Overwritten, Apply, Enabled, HandlerKeeps, Calm;
      if !steps[0].Store? {
        EnterOverwrites(Apply(n, steps[0]), steps[1..]);
      }
    }
  }

  /** The application is inside Stop, behind its first write. */
  predicate Stops(pc: Pc) {
    pc.Finish? || (!pc.WaitState? && (Inside(pc) || pc.Broken?) && pc.task == TaskStop)
  }

  /** A call of this kind, the first to return since m, returned Ok. */
  predicate NextReturned(m: Node, r: Node, api: Api) {
    |m.returned| < |r.returned| && r.returned[|m.returned|] == (api, Ok)
  }

  lemma StopsStep(n: Node, step: Step)
    requires n.state == Error && Stops(n.pc) && HandlerKeeps(n.kind, n.handler)
    requires Enabled(n, step) && Calm(n.kind, step)
    ensures
      && var m := Apply(n, step);
      && m.kind == n.kind && HandlerKeeps(m.kind, m.handler)
      && (if step.Store? then
            if n.pc.Finish? then m.state == Ready && m.returned == n.returned + [(Stop, Ok)]
            else m.state == Error && m.pc == Idle && m.returned == n.returned + [(Stop, Status.Fail)]
          else m.state == Error && Stops(m.pc) && m.returned == n.returned)
  {
  }

  lemma {:induction false} StopOverwrites(n: Node, steps: seq<Step>)
    requires n.state == Error && Stops(n.pc) && HandlerKeeps(n.kind, n.handler)
    requires Run(n, steps).Some? && CalmRun(n.kind, steps)
    ensures Overwritten(n, Run(n, steps).value) <==> NextReturned(n, Run(n, steps).value, Stop)
    decreases |steps|
  {
    if steps == [] {
      NotYet(n);
    } else {
      StopsStep(n, steps[0]);
      OverwrittenFirst(n, steps);
      WritesGrow(Apply(n, steps[0]), steps[1..]);
      assert Keeps(Idle);
      hide Overwritten, Apply, Enabled, Stops, HandlerKeeps, Calm, Keeps;
      var m := Apply(n, steps[0]);
      if !steps[0].Store? {
        StopOverwrites(m, steps[1..]);
      } else if !n.pc.Finish? {
        KeepsRun(m, steps[1..]);
      }
    }
  }

  /** What Start and Stop do to it, over every run: a Start or Stop that has made its test and not yet entered loses it
      with its next write; a Stop under way loses it if and only if it goes on to return Ok; a call that makes its test
      later, or a Start that has entered, never does. */
  lemma FatalLostIff(kind: Kind, before: seq<Step>, steps: seq<Step>)
    requires Run(NewNode(kind), before).Some? && WritesFatal(Run(NewNode(kind), before).value)
    requires Run(Apply(Run(NewNode(kind), before).value, Reply), steps).Some? && CalmRun(kind, steps)
    ensures
      && var m := Apply(Run(NewNode(kind), before).value, Reply);
      && var r := Run(m, steps).value;
      && (m.pc.Enter? ==> (Overwritten(m, r) <==> exists step <- steps :: step.Store?))
      && (Stops(m.pc) ==> (Overwritten(m, r) <==> NextReturned(m, r, Stop)))
      && (Keeps(m.pc) ==> !Overwritten(m, r))
  {
    AfterFatal(kind, before);
    var m := Apply(Run(NewNode(kind), before).value, Reply);
    hide Apply, PcShape, Overwritten;
    if m.pc.Enter? {
      EnterOverwrites(m, steps);
    } else if Stops(m.pc) {
      StopOverwrites(m, steps);
    }
    if Keeps(m.pc) {
      KeepsRun(m, steps);
    }
  }

  /** So Start and Stop have lost it only from the places named there. */
  lemma StartAndStop(pc: Pc)
    requires (Inside(pc) || pc.Enter? || pc.Broken?) && pc.task in {TaskStart, TaskStop}
    ensures Keeps(pc) <==> (pc.task == TaskStart && !pc.Enter?) || pc.Broken?
    ensures pc.Enter? || Keeps(pc) || (pc.WaitState? && pc.task == TaskStop) || Stops(pc)
  {
  }

  // ---- the response to a Stop ----

  /** What a message may write that was tested when seen writes were done: a response leads on iff the state was the
      expected one then. */
  predicate AnswerOf(kind: Kind, msg: Message, value: ObjectState, writes: seq<Write>, seen: nat) {
    seen <= |writes| &&
    var found := LastValue(writes[..seen]);
    match msg
    case Fatal => value == Error
    case RespLoad => value == if found == Initializing then Ready else Error
    case RespStart => value == if found == Starting then Running else Error
    case RespStop => value == if found == Stopping then Ready else Error
    case RespRelease => value == if found == DeInitializing then Initial else Error
    case RespPause => value == if found == Pausing then Pause else Error
    case RespResume => value == if found == Resuming then Running else Error
    case StartInputDone => kind == Decoder && value == Running
    case StartOutputDone => kind == Decoder && value == Running
    case OutputReconfig => kind == Decoder && value == Error
    case _ => false
  }

  /** The states that only one call writes, and those that nobody writes. */
  predicate Entered(w: Write) {
    && (w.value == Initializing ==> w.cause == ByCall(Init))
    && (w.value == Starting ==> w.cause == ByCall(Start))
    && (w.value == Stopping ==> w.cause == ByCall(Stop))
    && (w.value == DeInitializing ==> w.cause == ByCall(DeInitialize))
    && w.value !in {Pausing, Pause, Resuming}
  }

  ghost predicate WritesOk(kind: Kind, writes: seq<Write>) {
    forall i :: 0 <= i < |writes| ==>
      && (writes[i].cause.ByMessage? ==>
           writes[i].seen <= i && AnswerOf(kind, writes[i].cause.msg, writes[i].value, writes, writes[i].seen))
      && Entered(writes[i])
  }

  ghost predicate AnswersOk(n: Node) {
    && n.state == LastValue(n.writes) && WritesOk(n.kind, n.writes)
    && (n.handler.Answering? ==>
         && AnswerOf(n.kind, n.handler.msg, n.handler.value, n.writes, n.handler.seen)
         && Entered(Write(ByMessage(n.handler.msg), n.handler.value, n.handler.seen)))
    && (n.handler.Reconfiguring? ==> n.kind == Decoder)
  }

  lemma AnswerStays(kind: Kind, msg: Message, value: ObjectState, writes: seq<Write>, seen: nat, w: Write)
    requires AnswerOf(kind, msg, value, writes, seen)
    ensures AnswerOf(kind, msg, value, writes + [w], seen)
  {
    assert (writes + [w])[..seen] == writes[..seen];
  }

  lemma WritesAppend(kind: Kind, writes: seq<Write>, w: Write)
    requires WritesOk(kind, writes) && Entered(w)
    requires w.cause.ByMessage? ==> AnswerOf(kind, w.cause.msg, w.value, writes, w.seen)
    ensures WritesOk(kind, writes + [w])
  {
    hide AnswerOf, Entered;
    var all := writes + [w];
    forall i | 0 <= i < |all| && all[i].cause.ByMessage?
      ensures all[i].seen <= i && AnswerOf(kind, all[i].cause.msg, all[i].value, all, all[i].seen)
    {
      AnswerBounds(kind, all[i].cause.msg, all[i].value, writes, all[i].seen);
      AnswerStays(kind, all[i].cause.msg, all[i].value, writes, all[i].seen, w);
    }
  }

  lemma AnswerBounds(kind: Kind, msg: Message, value: ObjectState, writes: seq<Write>, seen: nat)
    ensures AnswerOf(kind, msg, value, writes, seen) ==> seen <= |writes|
  {
  }

  lemma NotPausing(kind: Kind, writes: seq<Write>)
    requires WritesOk(kind, writes)
    ensures LastValue(writes) !in {Pausing, Pause, Resuming}
  {
    if writes != [] {
      assert Entered(writes[|writes| - 1]);
    }
  }

  lemma LookAnswers(n: Node)
    requires AnswersOk(n) && n.handler.Looking?
    ensures AnswersOk(LookStep(n))
  {
    NotPausing(n.kind, n.writes);
    assert n.writes[..|n.writes|] == n.writes;
    hide WritesOk;
  }

  lemma AnswersStep(n: Node, step: Step)
    requires AnswersOk(n) && Enabled(n, step)
    ensures AnswersOk(Apply(n, step)) && Apply(n, step).kind == n.kind
  {
    hide WritesOk;
    match step
    case Store(_) =>
      var w := Write(StoreCause(n.pc), StoreValue(n.pc), |n.writes|);
      WritesAppend(n.kind, n.writes, w);
      hide AnswerOf;
      if n.handler.Answering? {
        AnswerStays(n.kind, n.handler.msg, n.handler.value, n.writes, n.handler.seen, w);
      }
    case Reply =>
      hide AnswerOf, Entered;
      WritesAppend(n.kind, n.writes, Write(ByMessage(n.handler.msg), n.handler.value, n.handler.seen));
    case Look => LookAnswers(n);
    case _ =>
  }

  lemma {:induction false} AnswersRun(n: Node, steps: seq<Step>)
    requires AnswersOk(n) && Run(n, steps).Some?
    ensures AnswersOk(Run(n, steps).value) && Run(n, steps).value.kind == n.kind
    decreases |steps|
  {
    hide AnswersOk, Apply, Enabled;
    if steps != [] {
      AnswersStep(n, steps[0]);
      AnswersRun(Apply(n, steps[0]), steps[1..]);
    }
  }

  /** The last of the first n writes is the entering write of this call. */
  predicate LastEntered(writes: seq<Write>, n: nat, api: Api, value: ObjectState) {
    0 < n <= |writes| && writes[n - 1].cause == ByCall(api) && writes[n - 1].value == value
  }

  /** What a message's write says of the write before its test. */
  ghost predicate Leads(kind: Kind, writes: seq<Write>, i: nat)
    requires i < |writes| && writes[i].cause.ByMessage?
  {
    var msg, value, seen := writes[i].cause.msg, writes[i].value, writes[i].seen;
    && seen <= i
    && (msg == RespLoad ==> value == if LastEntered(writes, seen, Init, Initializing) then Ready else Error)
    && (msg == RespStart ==> value == if LastEntered(writes, seen, Start, Starting) then Running else Error)
    && (msg == RespStop ==> value == if LastEntered(writes, seen, Stop, Stopping) then Ready else Error)
    && (msg == RespRelease ==>
         value == if LastEntered(writes, seen, DeInitialize, DeInitializing) then Initial else Error)
    && (msg in {StartInputDone, StartOutputDone} ==> kind == Decoder && value == Running)
    && (msg == OutputReconfig ==> kind == Decoder)
    && (msg in {RespPause, RespResume, Fatal, OutputReconfig} ==> value == Error)
    && msg in {RespLoad, RespStart, RespStop, RespRelease, StartInputDone, StartOutputDone, OutputReconfig,
               RespPause, RespResume, Fatal}
  }

  lemma LeadsIs(kind: Kind, writes: seq<Write>, i: nat)
    requires i < |writes| && writes[i].cause.ByMessage? && WritesOk(kind, writes)
    ensures Leads(kind, writes, i)
  {
    var seen := writes[i].seen;
    assert AnswerOf(kind, writes[i].cause.msg, writes[i].value, writes, seen);
    FoundIs(kind, writes, seen);
    hide WritesOk, LastValue, LastEntered;
  }

  lemma FoundIs(kind: Kind, writes: seq<Write>, seen: nat)
    requires seen <= |writes| && WritesOk(kind, writes)
    ensures
      && var found := LastValue(writes[..seen]);
      && found !in {Pausing, Pause, Resuming}
      && (found == Initializing <==> LastEntered(writes, seen, Init, Initializing))
      && (found == Starting <==> LastEntered(writes, seen, Start, Starting))
      && (found == Stopping <==> LastEntered(writes, seen, Stop, Stopping))
      && (found == DeInitializing <==> LastEntered(writes, seen, DeInitialize, DeInitializing))
  {
    if seen > 0 {
      assert Entered(writes[seen - 1]);
    }
    hide AnswerOf, WritesOk;
  }

  /** Over every run, what the messages write, in terms of what was written before their test. The response to a load
      leads to Ready, to a start to Running, to a stop to Ready and to a release to Initial, each if and only if the
      entering write of its own call was the last one then; otherwise to Error. Responses to pause and resume, fatal
      errors and failed reconfigurations always lead to Error. */
  lemma ResponseIs(kind: Kind, steps: seq<Step>, i: nat)
    requires Run(NewNode(kind), steps).Some? && i < |Run(NewNode(kind), steps).value.writes|
    requires Run(NewNode(kind), steps).value.writes[i].cause.ByMessage?
    ensures Leads(kind, Run(NewNode(kind), steps).value.writes, i)
  {
    AnswersRun(NewNode(kind), steps);
    hide WritesOk, Run, Leads;
    LeadsIs(kind, Run(NewNode(kind), steps).value.writes, i);
  }

  /** Every message that concerns the state is answered, whatever the state. */
  lemma EveryMessageIsAnswered(n: Node)
    requires n.handler.Looking?
    ensures
      && var h := LookStep(n).handler;
      && (n.handler.msg in {Fatal, RespLoad, RespStart, RespStop, RespRelease, RespPause, RespResume} ==> h.Answering?)
      && (n.kind == Decoder && n.handler.msg in {StartInputDone, StartOutputDone} ==> h.Answering?)
      && (n.kind == Decoder && n.handler.msg == OutputReconfig ==> h == Reconfiguring)
      && (h.Answering? ==> h.msg == n.handler.msg && h.seen == |n.writes|)
      && (h.Answering? && h.msg == RespPause ==> h.value == if n.state == Pausing then Pause else Error)
      && (h.Answering? && h.msg == RespResume ==> h.value == if n.state == Resuming then Running else Error)
  {
  }

  // ---- a Stop that races with its response ----

  /** The last write of a Stop, after so many others. */
  function OwnWrite(ok: bool, seen: nat): Write {
    if ok then Write(ByCallEnd(Stop), Ready, seen) else Write(ByFailure(Stop), Error, seen)
  }

  function Response(value: ObjectState, seen: nat): Write { Write(ByMessage(RespStop), value, seen) }

  /** A Stop has issued its command, and the event thread has the response but has not tested the state. */
  predicate Racing(n: Node) {
    && n.kind == Encoder && n.state == Stopping && n.handler == Looking(RespStop)
    && n.pc in {Wait(TaskStop, [RespStop]), Finish}
  }

  /** No further message, and no further call. */
  predicate Closed(steps: seq<Step>) {
    forall step <- steps :: !step.Receive? && !step.Call?
  }

  /** Where the two can be in between: with ok, Stop has seen its command completed. */
  predicate Raced(s: Node, n: Node, ok: bool) {
    var k := |s.writes|;
    && n.kind == Encoder
    && n.returned == s.returned + (if n.pc.Idle? then [(Stop, if ok then Ok else Status.Fail)] else [])
    && (|| n.pc == Wait(TaskStop, [RespStop]) || (n.pc == Finish && ok)
        || (n.pc == Broken(TaskStop) && !ok) || n.pc == Idle)
    && match n.handler
       case Looking(msg) =>
         && msg == RespStop
         && (if n.pc.Idle? then n.writes == s.writes + [OwnWrite(ok, k)] && n.state == OwnWrite(ok, k).value
             else n.writes == s.writes && n.state == Stopping)
       case Answering(msg, value, seen) =>
         && msg == RespStop
         && (if n.pc.Idle? then
               && n.writes == s.writes + [OwnWrite(ok, k)]
               && ((value == Ready && seen == k) || (value == Error && seen == k + 1))
             else n.writes == s.writes && value == Ready && seen == k)
       case Quiet =>
         if n.pc.Idle? then Ended(s, n, ok)
         else n.writes == s.writes + [Response(Ready, k)] && n.state == Ready
       case Reconfiguring => false
  }

  /** The response was written first, tested first, or tested last. */
  predicate Ended(s: Node, n: Node, ok: bool) {
    var k := |s.writes|;
    || (n.writes == s.writes + [Response(Ready, k), OwnWrite(ok, k + 1)] && n.state == OwnWrite(ok, k + 1).value)
    || (n.writes == s.writes + [OwnWrite(ok, k), Response(Ready, k)] && n.state == Ready)
    || (n.writes == s.writes + [OwnWrite(ok, k), Response(Error, k + 1)] && n.state == Error)
  }

  lemma RacedStep(s: Node, n: Node, ok: bool, step: Step) returns (okay: bool)
    requires Raced(s, n, ok) && Enabled(n, step) && !step.Receive? && !step.Call?
    ensures Raced(s, Apply(n, step), okay)
  {
    okay := if step.Poll? then true else if step.GiveUp? then false else ok;
  }

  lemma {:induction false} RacedRun(s: Node, n: Node, ok: bool, steps: seq<Step>) returns (okay: bool)
    requires Raced(s, n, ok) && Run(n, steps).Some? && Closed(steps)
    ensures Raced(s, Run(n, steps).value, okay)
    decreases |steps|
  {
    okay := ok;
    if steps != [] {
      okay := RacedStep(s, n, ok, steps[0]);
      hide Raced, Apply, Enabled;
      okay := RacedRun(s, Apply(n, steps[0]), okay, steps[1..]);
    }
  }

  /** For every interleaving of the rest of a Stop with its response: two writes, and the node ends in Error if and only
      if the response was tested after Stop's own last write, or Stop gave up and wrote last. The caller gets Ok in the
      first case when the command was seen completed. */
  lemma StopRaceIff(s: Node, steps: seq<Step>)
    requires Racing(s) && Run(s, steps).Some? && Closed(steps)
    requires Run(s, steps).value.pc.Idle? && Run(s, steps).value.handler.Quiet?
    ensures
      && var r, k := Run(s, steps).value, |s.writes|;
      && |r.writes| == k + 2 && s.writes <= r.writes && |r.returned| == |s.returned| + 1
      && r.returned[|s.returned|] in {(Stop, Ok), (Stop, Status.Fail)}
      && (r.state == Error <==>
           || (r.writes[k + 1].cause == ByMessage(RespStop) && r.writes[k + 1].seen == k + 1)
           || (r.writes[k + 1].cause == ByFailure(Stop)))
      && (r.returned[|s.returned|] == (Stop, Ok) <==> exists i | k <= i < k + 2 :: r.writes[i].cause == ByCallEnd(Stop))
  {
    assert s.returned + [] == s.returned;
    var ok := RacedRun(s, s, true, steps);
    var r, k := Run(s, steps).value, |s.writes|;
    assert Ended(s, r, ok);
    hide Run, Raced;
    var i := if r.writes[k].cause == ByMessage(RespStop) then k + 1 else k;
    assert r.writes[i] == OwnWrite(ok, i);
  }

  // ---- runs from a new encoder ----

  const RUNNING: seq<Step> := Lives.INITIALIZE + Lives.StartSteps(Encoder)
  const STARTED_OK: seq<(Api, Status)> := [(Init, Ok), (Start, Ok)]

  lemma Runs()
    ensures
      && var r := Run(NewNode(Encoder), RUNNING);
      && r.Some? && Lives.Calm(r.value, Encoder, Running) && r.value.returned == STARTED_OK
  {
    var n := NewNode(Encoder);
    Lives.InitializeRuns(n);
    hide Lives.INITIALIZE, Lives.StartSteps, Run;
    Lives.StartRuns(Run(n, Lives.INITIALIZE).value);
    Lives.GoesOn(n, Lives.INITIALIZE, Lives.StartSteps(Encoder), Running, Start);
    assert [] + [(Init, Ok)] + [(Start, Ok)] == STARTED_OK;
  }

  const RESPOND: seq<Step> := [Ioctl(true), Receive(RespStop)]
  const RACING: seq<Step> := RUNNING + Lives.ENTER_STOP + RESPOND

  lemma Responds(n: Node)
    requires n.kind == Encoder && n.pc == Issue(TaskStop, [RespStop]) && n.handler == Quiet
    ensures
      && var r := Run(n, RESPOND);
      && r.Some? && r.value.completed == Some(RespStop)
      && Lives.Within(r.value, n, Wait(TaskStop, [RespStop]), n.state, Looking(RespStop))
  {
    hide Apply, Enabled;
    DoIoctl(n);
    DoReceive(Apply(n, Ioctl(true)), RespStop);
    RunTwo(n, Ioctl(true), Receive(RespStop));
  }

  lemma Races()
    ensures
      && var r := Run(NewNode(Encoder), RACING);
      && r.Some? && Racing(r.value) && r.value.returned == STARTED_OK
      && r.value.pc == Wait(TaskStop, [RespStop]) && r.value.completed == Some(RespStop)
  {
    var n := NewNode(Encoder);
    Runs();
    hide RUNNING, Lives.ENTER_STOP, RESPOND, Run;
    Lives.EntersStop(Run(n, RUNNING).value);
    RunTogether(n, RUNNING, Lives.ENTER_STOP);
    Responds(Run(n, RUNNING + Lives.ENTER_STOP).value);
    RunTogether(n, RUNNING + Lives.ENTER_STOP, RESPOND);
  }

  /** Its two parts, seen to be completed and answered, in either order. */
  predicate Responded(n: Node) {
    && n.kind == Encoder && n.state == Stopping && n.handler == Looking(RespStop)
    && n.pc == Wait(TaskStop, [RespStop]) && n.completed == Some(RespStop)
  }

  lemma RacesBehind(n: Node)
    requires Responded(n)
    ensures
      && var a := Run(n, [Poll, Store(false), Look, Reply]);
      && a.Some? && a.value.state == Error && a.value.returned == n.returned + [(Stop, Ok)]
  {
    hide Apply, Enabled;
    DoPoll(n);
    var n1 := Apply(n, Poll);
    DoStore(n1, false);
    var n2 := Apply(n1, Store(false));
    DoLook(n2);
    DoReply(Apply(n2, Look));
    RunFour(n, Poll, Store(false), Look, Reply);
  }

  lemma RacesAhead(n: Node)
    requires Responded(n)
    ensures
      && var b := Run(n, [Look, Reply, Poll, Store(false)]);
      && b.Some? && b.value.state == Ready && b.value.returned == n.returned + [(Stop, Ok)]
  {
    hide Apply, Enabled;
    DoLook(n);
    var n1 := Apply(n, Look);
    DoReply(n1);
    var n2 := Apply(n1, Reply);
    DoPoll(n2);
    DoStore(Apply(n2, Poll), false);
    RunFour(n, Look, Reply, Poll, Store(false));
  }

  lemma GivesUpStop(n: Node)
    requires Responded(n)
    ensures
      && var c := Run(n, [GiveUp, Look, Store(false), Reply]);
      && c.Some? && c.value.state == Ready && c.value.returned == n.returned + [(Stop, Status.Fail)]
  {
    hide Apply, Enabled;
    DoGiveUp(n);
    var n1 := Apply(n, GiveUp);
    DoLook(n1);
    var n2 := Apply(n1, Look);
    DoStore(n2, false);
    DoReply(Apply(n2, Store(false)));
    RunFour(n, GiveUp, Look, Store(false), Reply);
  }

  /** Three endings, reached from a new encoder. Stop answers Ok and leaves Error; it answers Ok and leaves Ready; it
      gives up, and a response that was tested in time leaves Ready. */
  lemma StopRace()
    ensures
      && var a := Run(NewNode(Encoder), RACING + [Poll, Store(false), Look, Reply]);
      && a.Some? && a.value.state == Error && a.value.returned == STARTED_OK + [(Stop, Ok)]
    ensures
      && var b := Run(NewNode(Encoder), RACING + [Look, Reply, Poll, Store(false)]);
      && b.Some? && b.value.state == Ready && b.value.returned == STARTED_OK + [(Stop, Ok)]
    ensures
      && var c := Run(NewNode(Encoder), RACING + [GiveUp, Look, Store(false), Reply]);
      && c.Some? && c.value.state == Ready && c.value.returned == STARTED_OK + [(Stop, Status.Fail)]
  {
    Races();
    hide RACING, Run;
    var n := Run(NewNode(Encoder), RACING).value;
    RacesBehind(n);
    RacesAhead(n);
    GivesUpStop(n);
    RunTogether(NewNode(Encoder), RACING, [Poll, Store(false), Look, Reply]);
    RunTogether(NewNode(Encoder), RACING, [Look, Reply, Poll, Store(false)]);
    RunTogether(NewNode(Encoder), RACING, [GiveUp, Look, Store(false), Reply]);
  }

  const FAIL: seq<Step> := [Receive(Fatal), Look, Reply]
  const LOST: seq<Step> := RUNNING + [Call(Stop), Read] + FAIL
  const ENDED: seq<Step> := [Store(false), ClearCommand, Ioctl(true), Receive(RespStop)]

  lemma FailsFatally(n: Node)
    requires n.handler == Quiet
    ensures
      && var r := Run(n, FAIL);
      && r.Some? && Lives.Within(r.value, n, n.pc, Error, Quiet)
      && r.value.writes == n.writes + [Write(ByMessage(Fatal), Error, |n.writes|)]
  {
    hide Apply, Enabled;
    DoReceive(n, Fatal);
    var n1 := Apply(n, Receive(Fatal));
    DoLook(n1);
    DoReply(Apply(n1, Look));
    RunThree(n, Receive(Fatal), Look, Reply);
  }

  lemma IsLost()
    ensures
      && var m := Run(NewNode(Encoder), LOST);
      && m.Some? && m.value.kind == Encoder && m.value.state == Error && m.value.pc == Enter(TaskStop)
      && m.value.handler == Quiet && m.value.returned == STARTED_OK
      && m.value.writes != [] && m.value.writes[|m.value.writes| - 1].cause == ByMessage(Fatal)
  {
    var n := NewNode(Encoder);
    Runs();
    assert STARTED_OK + [] == STARTED_OK;
    hide RUNNING, FAIL, Run;
    Failures.StartStopRefused(Run(n, RUNNING).value, Stop);
    RunTogether(n, RUNNING, [Call(Stop), Read]);
    var m := Run(n, RUNNING + [Call(Stop), Read]).value;
    SameKind(Run(n, RUNNING).value, [Call(Stop), Read]);
    FailsFatally(m);
    RunTogether(n, RUNNING + [Call(Stop), Read], FAIL);
  }

  lemma SameKind(n: Node, steps: seq<Step>)
    requires Run(n, steps).Some?
    ensures Run(n, steps).value.kind == n.kind
  {
    WritesGrow(n, steps);
  }

  lemma StopsAfterAll(n: Node)
    requires n.kind == Encoder && n.pc == Enter(TaskStop) && n.handler == Quiet
    ensures Run(n, ENDED).Some? && Responded(Run(n, ENDED).value) && Run(n, ENDED).value.returned == n.returned
  {
    hide Apply, Enabled;
    Lives.Nothing(n.returned);
    DoStore(n, false);
    var n1 := Apply(n, Store(false));
    DoClear(n1);
    var n2 := Apply(n1, ClearCommand);
    DoIoctl(n2);
    DoReceive(Apply(n2, Ioctl(true)), RespStop);
    RunFour(n, Store(false), ClearCommand, Ioctl(true), Receive(RespStop));
  }

  lemma EndsWell(n: Node)
    requires n.kind == Encoder && n.pc == Enter(TaskStop) && n.handler == Quiet
    ensures
      && var r := Run(n, ENDED + [Look, Reply, Poll, Store(false)]);
      && r.Some? && r.value.state == Ready && r.value.returned == n.returned + [(Stop, Ok)]
  {
    hide ENDED, Run, Responded;
    StopsAfterAll(n);
    RacesAhead(Run(n, ENDED).value);
    RunTogether(n, ENDED, [Look, Reply, Poll, Store(false)]);
  }

  /** A fatal error between the test of a Stop and its write: Stop answers Ok and leaves a node that is Ready. */
  lemma FatalLostInStop()
    ensures
      && var m := Run(NewNode(Encoder), LOST);
      && m.Some? && m.value.state == Error && m.value.pc == Enter(TaskStop) && !Keeps(m.value.pc)
      && m.value.writes != [] && m.value.writes[|m.value.writes| - 1].cause == ByMessage(Fatal)
    ensures
      && var r := Run(NewNode(Encoder), LOST + (ENDED + [Look, Reply, Poll, Store(false)]));
      && r.Some? && r.value.state == Ready && r.value.returned == STARTED_OK + [(Stop, Ok)]
  {
    IsLost();
    EndsWell(Run(NewNode(Encoder), LOST).value);
    hide LOST, ENDED, Run;
    RunTogether(NewNode(Encoder), LOST, ENDED + [Look, Reply, Poll, Store(false)]);
  }
}
