/** The life cycle of a video node: its API calls, one application thread at a time, interleaved with the driver's
    messages at every single read and write of the node state and of the completed command. Nothing is locked. */
module VidcLifecycleSpec {
  import opened QCDefs

  datatype Kind = Encoder | Decoder

  /** The driver messages that matter here. The last four only record a command. */
  datatype Message =
    | Fatal | RespStart | StartInputDone | StartOutputDone | RespLoad | RespRelease | RespStop
    | RespPause | RespResume | OutputReconfig | Other
    | LastFlag | Drained | StopInputDone | StopOutputDone

  // ---- what the event thread does with a message ----

  /** The state a response expects to find, and the one it then leads to; from any other it leads to Error. */
  function Transition(msg: Message): Option<(ObjectState, ObjectState)> {
    match msg
    case RespStart => Some((Starting, Running))
    case RespLoad => Some((Initializing, Ready))
    case RespRelease => Some((DeInitializing, Initial))
    case RespStop => Some((Stopping, Ready))
    case RespPause => Some((Pausing, Pause))
    case RespResume => Some((Resuming, Running))
    case _ => None
  }

  /** The messages that put a decoder into the Running state whatever state it is in; the encoder ignores them. */
  predicate Forces(kind: Kind, msg: Message) {
    kind == Decoder && msg in {StartInputDone, StartOutputDone}
  }

  /** What EventCallback is to write after a test that found this state; None is a message without effect. A
      reconfiguration of a decoder is dealt with on its own. */
  function Answer(kind: Kind, state: ObjectState, msg: Message): Option<ObjectState> {
    if msg == Fatal then Some(Error)
    else if Forces(kind, msg) then Some(Running)
    else if Transition(msg).Some? then Some(if state == Transition(msg).value.0 then Transition(msg).value.1 else Error)
    else None
  }

  predicate CallsBack(msg: Message) {
    msg !in {LastFlag, Drained, StopInputDone, StopOutputDone}
  }

  /** m_cmdCompleted is set by these messages only. */
  predicate Completes(msg: Message) {
    msg in {RespStart, StartInputDone, StartOutputDone, RespLoad, RespRelease, RespStop,
            LastFlag, StopInputDone, StopOutputDone}
  }

  /** Where the event thread is: before its test of the state, between test and write, or reconfiguring the output. */
  datatype Handler =
    | Quiet | Looking(msg: Message) | Answering(msg: Message, value: ObjectState, seen: nat) | Reconfiguring

  // ---- what the application thread does ----

  datatype Api = Init | Start | Stop | DeInitialize

  /** DeInitialize is called by the application, and by a failing Initialize from two places. */
  datatype From = Caller | PostInit | CleanUp(status: Status)

  datatype Task = TaskInit | TaskStart | TaskStop | TaskRelease(from: From)

  function ApiOf(t: Task): Api {
    match t case TaskInit => Init case TaskStart => Start case TaskStop => Stop case TaskRelease(_) => DeInitialize
  }

  /** The commands a task issues and waits for, one after the other. */
  function Commands(kind: Kind, t: Task): seq<Message> {
    match t
    case TaskInit => [RespLoad]
    case TaskStart => if kind == Encoder then [RespStart] else [StartInputDone]
    case TaskStop => if kind == Encoder then [RespStop] else [LastFlag, StopInputDone, StopOutputDone]
    case TaskRelease(_) => [RespRelease]
  }

  function Entering(t: Task): ObjectState {
    match t
    case TaskInit => Initializing
    case TaskStart => Starting
    case TaskStop => Stopping
    case TaskRelease(_) => DeInitializing
  }

  /** The state a task waits for after its commands; Stop writes Ready itself instead. */
  function Awaited(t: Task): ObjectState {
    match t
    case TaskInit => Ready
    case TaskStart => Running
    case TaskStop => Ready
    case TaskRelease(_) => Initial
  }

  /** Where the application's thread is. */
  datatype Pc =
    | Idle
    | Config                                // Initialize: the configuration
    | Test(task: Task, which: nat)          // about to read the state
    | Check                                 // Initialize: the values of the configuration
    | Enter(task: Task)                     // about to write the entering state
    | Setup                                 // Initialize: the driver, its properties and buffers
    | Clear(task: Task, todo: seq<Message>) // about to clear the completed command
    | ClearDrain(task: Task, todo: seq<Message>) // about to clear the drain flag
    | Issue(task: Task, todo: seq<Message>)
    | Wait(task: Task, todo: seq<Message>)
    | CheckDrain(task: Task, todo: seq<Message>)
    | WaitState(task: Task)
    | CheckBuffers                          // Initialize: the buffers of the configuration
    | Finish                                // Stop, about to write Ready
    | Broken(task: Task)                    // about to write Error after a failed command or wait
    | PostFail                              // Initialize, the Error write before its first DeInitialize
    | Failing(base: bool, status: Status)   // Initialize, the Error writes on its way out
    | LastFail(status: Status)              // and the last one
    | Freeing(from: From)                   // DeInitialize: the buffers
    | Freed(from: From)                     // about to write Initial
    | Refuse(from: From, status: Status)    // about to write Error at its end

  /** Who wrote the node state. */
  datatype Cause = ByCall(api: Api) | ByCallEnd(api: Api) | ByFailure(api: Api) | ByMessage(msg: Message)

  /** A write of the state; seen is the number of writes before the test that led to it. */
  datatype Write = Write(cause: Cause, value: ObjectState, seen: nat)

  datatype Node = Node(
    kind: Kind,
    state: ObjectState,
    pc: Pc,
    completed: Option<Message>,
    drained: bool,
    handler: Handler,
    /** all writes of the state */
    writes: seq<Write>,
    returned: seq<(Api, Status)>)

  datatype Step =
    | Call(api: Api)
    | Local(ok: bool)       // a check or set-up of Initialize, decided outside the node
    | Read                  // read the state, or the drain flag
    | Store(more: bool)     // write the state; Initialize's way out writes Error any number of times
    | ClearCommand
    | ClearDrained
    | Ioctl(ok: bool)
    | Poll                  // the wait sees its command, or the awaited state
    | GiveUp                // the wait times out
    | Free(ok: bool)        // free the buffers, close the driver
    | Receive(msg: Message) // the driver's message records the command
    | Look                  // the event thread tests the state
    | Reply                 // and writes it
    | Reconfigure(started: bool, ok: bool) // the decoder's output; starting it clears the completed command

  predicate Writing(pc: Pc) {
    pc.Enter? || pc.Finish? || pc.Broken? || pc.PostFail? || pc.Failing? || pc.LastFail? || pc.Freed? || pc.Refuse?
  }

  predicate Enabled(n: Node, step: Step) {
    match step
    case Call(_) => n.pc.Idle?
    case Local(_) => Deciding(n.pc)
    case Read => n.pc.Test? || (n.pc.CheckDrain? && n.pc.todo != [])
    case Store(_) => Writing(n.pc)
    case ClearCommand => n.pc.Clear? && n.pc.todo != []
    case ClearDrained => n.pc.ClearDrain?
    case Ioctl(_) => n.pc.Issue?
    case Poll =>
      || (n.pc.Wait? && n.pc.todo != [] && n.completed == Some(n.pc.todo[0]))
      || (n.pc.WaitState? && n.state == Awaited(n.pc.task))
    case GiveUp => n.pc.Wait? || n.pc.WaitState?
    case Free(_) => n.pc.Freeing?
    case Receive(_) => n.handler.Quiet?
    case Look => n.handler.Looking?
    case Reply => n.handler.Answering?
    case Reconfigure(started, ok) => n.handler.Reconfiguring? && (ok ==> started)
  }

  // ---- the steps of the application thread ----

  function First(api: Api): Pc {
    match api
    case Init => Config
    case Start => Test(TaskStart, 0)
    case Stop => Test(TaskStop, 0)
    case DeInitialize => Test(TaskRelease(Caller), 0)
  }

  predicate Deciding(pc: Pc) { pc.Config? || pc.Check? || pc.Setup? || pc.CheckBuffers? }

  function LocalPc(pc: Pc, ok: bool): Pc
    requires Deciding(pc)
  {
    match pc
    case Config => if ok then Test(TaskInit, 0) else Failing(false, BadArguments)
    case Check => if ok then Enter(TaskInit) else Failing(true, BadArguments)
    case Setup => if ok then Clear(TaskInit, [RespLoad]) else Failing(true, Status.Fail)
    case CheckBuffers => if ok then Idle else Failing(true, BadArguments)
  }

  function LocalReturn(pc: Pc, ok: bool): seq<(Api, Status)> {
    if pc.CheckBuffers? && ok then [(Init, Ok)] else []
  }

  /** Where a read of the state leads. DeInitialize makes up to three: is it Ready, is it Error, is it Ready. */
  function TestPc(pc: Pc, state: ObjectState): Pc
    requires pc.Test?
  {
    match pc.task
    case TaskInit => if state == Initial then Check else Failing(false, BadState)
    case TaskStart => if state == Ready then Enter(TaskStart) else Idle
    case TaskStop => if state == Running then Enter(TaskStop) else Idle
    case TaskRelease(from) =>
      if pc.which == 0 then Test(pc.task, if state == Ready then 2 else 1)
      else if pc.which == 1 then (if state == Error then Test(pc.task, 2) else Refuse(from, BadState))
      else if state == Ready then Enter(pc.task)
      else Freeing(from)
  }

  function TestReturn(pc: Pc, state: ObjectState): seq<(Api, Status)>
    requires pc.Test?
  {
    if pc.task == TaskStart && state != Ready then [(Start, BadState)]
    else if pc.task == TaskStop && state != Running then [(Stop, BadState)]
    else []
  }

  /** The completed command is cleared; before a drain its flag is too. */
  function ClearedPc(t: Task, todo: seq<Message>): Pc
    requires todo != []
  {
    if todo[0] == LastFlag then ClearDrain(t, todo) else Issue(t, todo)
  }

  /** A command is done: the next one, or what follows the last. */
  function NextPc(t: Task, todo: seq<Message>): Pc
    requires todo != []
  {
    if |todo| > 1 then Clear(t, todo[1..]) else if t == TaskStop then Finish else WaitState(t)
  }

  /** A command failed or was not answered in time. */
  function FailedPc(t: Task): Pc { if t == TaskInit then PostFail else Broken(t) }

  /** DeInitialize ends. */
  function ReleasedPc(from: From): Pc {
    match from case Caller => Idle case PostInit => Failing(true, Status.Fail) case CleanUp(s) => LastFail(s)
  }

  function ReleasedReturn(from: From, status: Status): seq<(Api, Status)> {
    if from == Caller then [(DeInitialize, status)] else []
  }

  /** A write of the state: by whom, what, and what follows. */
  function StoreCause(pc: Pc): Cause
    requires Writing(pc)
  {
    match pc
    case Enter(t) => ByCall(ApiOf(t))
    case Finish => ByCallEnd(Stop)
    case Broken(t) => ByFailure(ApiOf(t))
    case Freed(_) => ByCallEnd(DeInitialize)
    case Refuse(_, _) => ByFailure(DeInitialize)
    case _ => ByFailure(Init)
  }

  function StoreValue(pc: Pc): ObjectState
    requires Writing(pc)
  {
    match pc case Enter(t) => Entering(t) case Finish => Ready case Freed(_) => Initial case _ => Error
  }

  function StorePc(kind: Kind, pc: Pc, more: bool): Pc
    requires Writing(pc)
  {
    match pc
    case Enter(t) => if t == TaskInit then Setup else Clear(t, Commands(kind, t))
    case Finish => Idle
    case Broken(t) => if t == TaskInit then PostFail else if t.TaskRelease? then Refuse(t.from, Status.Fail) else Idle
    case PostFail => Test(TaskRelease(PostInit), 0)
    case Failing(base, status) =>
      if more then pc else if base then Test(TaskRelease(CleanUp(status)), 0) else LastFail(status)
    case LastFail(_) => Idle
    case Freed(from) => ReleasedPc(from)
    case Refuse(from, _) => ReleasedPc(from)
  }

  function StoreReturn(pc: Pc): seq<(Api, Status)>
    requires Writing(pc)
  {
    match pc
    case Finish => [(Stop, Ok)]
    case Broken(t) => if t == TaskStart || t == TaskStop then [(ApiOf(t), Status.Fail)] else []
    case LastFail(status) => [(Init, status)]
    case Freed(from) => ReleasedReturn(from, Ok)
    case Refuse(from, status) => ReleasedReturn(from, status)
    case _ => []
  }

  function StoreStep(n: Node, more: bool): Node
    requires Writing(n.pc)
  {
    n.(state := StoreValue(n.pc), writes := n.writes + [Write(StoreCause(n.pc), StoreValue(n.pc), |n.writes|)],
       pc := StorePc(n.kind, n.pc, more), returned := n.returned + StoreReturn(n.pc))
  }

  /** What follows when the awaited state is seen. */
  function WaitedPc(t: Task): Pc {
    match t case TaskInit => CheckBuffers case TaskRelease(from) => Freeing(from) case _ => Idle
  }

  function WaitedReturn(t: Task): seq<(Api, Status)> {
    if t == TaskStart || t == TaskStop then [(ApiOf(t), Ok)] else []
  }

  // ---- the steps of the event thread ----

  function LookStep(n: Node): Node
    requires n.handler.Looking?
  {
    var msg := n.handler.msg;
    n.(handler :=
      if n.kind == Decoder && msg == OutputReconfig then Reconfiguring
      else match Answer(n.kind, n.state, msg)
        case None => Quiet
        case Some(value) => Answering(msg, value, |n.writes|))
  }

  function ReceiveStep(n: Node, msg: Message): Node {
    n.(completed := if Completes(msg) then Some(msg) else n.completed,
       drained := n.drained || msg == Drained,
       handler := if CallsBack(msg) then Looking(msg) else Quiet)
  }

  function Apply(n: Node, step: Step): Node
    requires Enabled(n, step)
  {
    match step
    case Call(api) => n.(pc := First(api))
    case Local(ok) => n.(pc := LocalPc(n.pc, ok), returned := n.returned + LocalReturn(n.pc, ok))
    case Read =>
      if n.pc.Test? then n.(pc := TestPc(n.pc, n.state), returned := n.returned + TestReturn(n.pc, n.state))
      else n.(pc := if n.drained then NextPc(n.pc.task, n.pc.todo) else FailedPc(n.pc.task))
    case Store(more) => StoreStep(n, more)
    case ClearCommand => n.(completed := None, pc := ClearedPc(n.pc.task, n.pc.todo))
    case ClearDrained => n.(drained := false, pc := Issue(n.pc.task, n.pc.todo))
    case Ioctl(ok) => n.(pc := if ok then Wait(n.pc.task, n.pc.todo) else FailedPc(n.pc.task))
    case Poll =>
      if n.pc.WaitState? then n.(pc := WaitedPc(n.pc.task), returned := n.returned + WaitedReturn(n.pc.task))
      else if n.pc.todo[0] == LastFlag then n.(pc := CheckDrain(n.pc.task, n.pc.todo))
      else n.(pc := NextPc(n.pc.task, n.pc.todo))
    case GiveUp => n.(pc := if n.pc.Wait? then FailedPc(n.pc.task) else Broken(n.pc.task))
    case Free(ok) => n.(pc := if ok then Freed(n.pc.from) else Refuse(n.pc.from, Status.Fail))
    case Receive(msg) => ReceiveStep(n, msg)
    case Look => LookStep(n)
    case Reply =>
      n.(state := n.handler.value, handler := Quiet,
         writes := n.writes + [Write(ByMessage(n.handler.msg), n.handler.value, n.handler.seen)])
    case Reconfigure(started, ok) =>
      n.(completed := if started then None else n.completed,
         handler := if ok then Quiet else Answering(OutputReconfig, Error, |n.writes|))
  }

  function Run(n: Node, steps: seq<Step>): Option<Node>
    decreases |steps|
  {
    if steps == [] then Some(n)
    else if Enabled(n, steps[0]) then Run(Apply(n, steps[0]), steps[1..])
    else None
  }

  function NewNode(kind: Kind): Node { Node(kind, Initial, Idle, None, false, Quiet, [], []) }

  /** ValidateFrameSubmission reads the state once. */
  predicate Accepts(state: ObjectState, hasBuffer: bool, size: nat, requireNonZeroSize: bool) {
    state == Running && hasBuffer && (size != 0 || !requireNonZeroSize)
  }
}
