/** The round-robin inference cluster: N worker threads, each between a request and a reply queue, and the thread
    that calls Execute. Every interleaving of their queue operations is a run of `System`. */
module ClusterSpec {
  import opened QCDefs

  /** One slice of an array along its first axis. */
  type Row = seq<int>

  /** Row i of every input of a call, in the order of the inputs. */
  type Item = seq<Row>

  datatype Reply = Reply(timestamp: int, outputs: map<string, seq<Row>>)

  /** The ticket of a request is the index of its item in the batch of that session's call. */
  datatype Request = Request(session: nat, ticket: nat, item: Item)

  datatype Answer = Answer(request: Request, reply: Reply)

  datatype Worker = Worker(requests: seq<Request>, busy: Option<Request>, replies: seq<Answer>)

  const IDLE := Worker([], None, [])

  /** What Execute has gathered: nothing yet, a result, or the KeyError of a reply that lacks an output. */
  datatype Gathered = Nothing | Result(reply: Reply) | KeyError

  function Merge(g: Gathered, r: Reply): Gathered {
    match g
    case Nothing => Result(r)
    case Result(acc) =>
      if acc.outputs.Keys <= r.outputs.Keys then
        Result(acc.(outputs := map k | k in acc.outputs :: acc.outputs[k] + r.outputs[k]))
      else KeyError
    case KeyError => KeyError
  }

  function MergeAll(replies: seq<Reply>): Gathered {
    if replies == [] then Nothing else Merge(MergeAll(replies[..|replies| - 1]), replies[|replies| - 1])
  }

  /** The worker item i goes to. */
  function Turn(i: nat, n: nat): (w: nat)
    requires n > 0
    ensures w < n
  {
    i % n
  }

  datatype System = System(
    session: nat,
    items: seq<Item>,
    workers: seq<Worker>,
    put: nat,
    got: nat,
    gathered: Gathered,
    /** the reply each item got, by ticket */
    log: map<nat, Answer>)

  datatype Step =
    | Put                          // Execute: mqw.put for the next item
    | Take(worker: nat)            // a worker: mqw.get
    | Finish(worker: nat, reply: Reply) // a worker: the inference and mqr.put
    | Get                          // Execute: mqr.get and concatenate

  predicate Enabled(s: System, step: Step)
    requires |s.workers| > 0
  {
    match step
    case Put => s.put < |s.items|
    case Take(w) => w < |s.workers| && s.workers[w].busy.None? && s.workers[w].requests != []
    case Finish(w, _) => w < |s.workers| && s.workers[w].busy.Some?
    case Get =>
      && s.put == |s.items| && s.got < |s.items| && !s.gathered.KeyError?
      && s.workers[Turn(s.got, |s.workers|)].replies != []
  }

  function Apply(s: System, step: Step): (n: System)
    requires |s.workers| > 0 && Enabled(s, step)
    ensures |n.workers| == |s.workers| && n.items == s.items
  {
    match step
    case Put =>
      var w := Turn(s.put, |s.workers|);
      var worker := s.workers[w].(requests := s.workers[w].requests + [Request(s.session, s.put, s.items[s.put])]);
      s.(workers := s.workers[w := worker], put := s.put + 1)
    case Take(w) =>
      var worker := s.workers[w];
      s.(workers := s.workers[w := worker.(requests := worker.requests[1..], busy := Some(worker.requests[0]))])
    case Finish(w, reply) =>
      var worker := s.workers[w];
      var a := Answer(worker.busy.value, reply);
      s.(workers := s.workers[w := worker.(busy := None, replies := worker.replies + [a])],
         log := s.log[a.request.ticket := a])
    case Get =>
      var w := Turn(s.got, |s.workers|);
      var worker := s.workers[w];
      s.(workers := s.workers[w := worker.(replies := worker.replies[1..])],
         got := s.got + 1, gathered := Merge(s.gathered, worker.replies[0].reply))
  }

  predicate Clean(workers: seq<Worker>) {
    forall w :: 0 <= w < |workers| ==> workers[w] == IDLE
  }

  function Begin(session: nat, items: seq<Item>, workers: seq<Worker>): System {
    System(session, items, workers, 0, 0, Nothing, map[])
  }

  function Run(s: System, steps: seq<Step>): Option<System>
    requires |s.workers| > 0
    decreases |steps|
  {
    if steps == [] then Some(s)
    else if Enabled(s, steps[0]) then Run(Apply(s, steps[0]), steps[1..])
    else None
  }

  /** The batch a call splits into items: row i of every input; inputs of different length are refused. */
  function Split(inputs: seq<seq<Row>>): Option<seq<Item>> {
    if inputs != [] && forall x <- inputs :: |x| == |inputs[0]| then
      Some(seq(|inputs[0]|, i requires 0 <= i < |inputs[0]| && (forall x <- inputs :: |x| == |inputs[0]|) =>
        seq(|inputs|, j requires 0 <= j < |inputs| => assert inputs[j] in inputs; inputs[j][i])))
    else None
  }
}
