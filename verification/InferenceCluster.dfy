/** OnlineInferenceCluster as the object whose queues Execute and the worker threads change. */
module InferenceCluster {
  import opened QCDefs
  import opened ClusterSpec
  import opened ClusterProofs
  import opened ClusterFifo
  import opened ClusterInputs

  class OnlineInferenceCluster {
    var workers: seq<Worker>
    var session: nat
    /** What the inference of a request gives. No two requests of a cluster are the same, so this leaves every reply
        open. */
    const inference: Request -> Reply

    /** The replies in the queues are those of the inference, and what the queues hold is from earlier calls. */
    ghost predicate Valid()
      reads `workers, `session
    {
      |workers| > 0 && Sound() && Stale(workers, session)
    }

    ghost predicate Sound()
      reads `workers
    {
      forall w :: 0 <= w < |workers| ==> forall a <- workers[w].replies :: a.reply == inference(a.request)
    }

    constructor (targets: nat, inference: Request -> Reply)
      ensures |workers| == targets && Clean(workers) && session == 0 && this.inference == inference
      ensures targets > 0 ==> Valid()
    {
      workers := seq(targets, _ => IDLE);
      session := 0;
      this.inference := inference;
    }

    /** The replies a call takes for its items, given what the queues held before. */
    function Expected(before: seq<Worker>, id: nat, items: seq<Item>): (replies: seq<Reply>)
      requires |before| > 0
      ensures |replies| == |items|
    {
      Answers(before, id, items, inference)
    }

    /** The queue operations so far of the call under way. */
    ghost predicate Underway(s: System, before: seq<Worker>)
      reads `workers, `session
    {
      session == s.session + 1 && Fifo(s, before) && s.workers == workers && Sound()
    }

    /** One operation of worker w, if it has one: the worker threads run between any two operations of Execute. */
    method WorkerStep(w: nat, ghost s: System, ghost before: seq<Worker>) returns (ghost n: System)
      requires w < |workers| && Underway(s, before)
      modifies `workers
      ensures Underway(n, before) && |workers| == old(|workers|)
      ensures n == s || (Remaining(n) == Remaining(s) - 1 && n == s.(workers := n.workers, log := n.log))
      ensures old(workers[w].busy.Some? || workers[w].requests != []) ==> n != s
    {
      hide Fifo;
      FifoWorkers(s, before);
      n := s;
      var worker := workers[w];
      if worker.busy.Some? {
        var reply := inference(worker.busy.value);
        workers := workers[w := worker.(busy := None, replies := worker.replies + [Answer(worker.busy.value, reply)])];
        n := Apply(s, Finish(w, reply));
        StepFifo(s, before, Finish(w, reply));
        StepCounts(s, Finish(w, reply));
      } else if worker.requests != [] {
        workers := workers[w := worker.(requests := worker.requests[1..], busy := Some(worker.requests[0]))];
        n := Apply(s, Take(w));
        StepFifo(s, before, Take(w));
        StepCounts(s, Take(w));
      }
    }

    /** Any number of worker operations, in any order. */
    method Workers(ghost s: System, ghost before: seq<Worker>) returns (ghost n: System)
      requires |workers| > 0 && Underway(s, before)
      modifies `workers
      ensures Underway(n, before) && |workers| == old(|workers|)
      ensures Remaining(n) <= Remaining(s) && n == s.(workers := n.workers, log := n.log)
    {
      hide Fifo, Sound;
      n := s;
      var turns: nat := *;
      while turns > 0
        invariant |workers| == old(|workers|) && Underway(n, before)
        invariant Remaining(n) <= Remaining(s) && n == s.(workers := n.workers, log := n.log)
      {
        var w :| 0 <= w < |workers|;
        n := WorkerStep(w, n, before);
        turns := turns - 1;
      }
    }

    /** mqr.get on worker w: block until the worker threads have put a reply there. */
    method AwaitReply(w: nat, ghost s: System, ghost before: seq<Worker>) returns (ghost n: System)
      requires w < |workers| && Underway(s, before)
      requires s.put == |s.items| && s.got < |s.items| && !s.gathered.KeyError? && w == Turn(s.got, |workers|)
      modifies `workers
      ensures Underway(n, before) && |workers| == old(|workers|) && workers[w].replies != []
      ensures n == s.(workers := n.workers, log := n.log)
    {
      hide Fifo, Sound, Turn;
      n := s;
      while workers[w].replies == []
        invariant |workers| == old(|workers|) && Underway(n, before)
        invariant n == s.(workers := n.workers, log := n.log)
        decreases Remaining(n)
      {
        FifoWorkers(n, before);
        HeadIs(n, before, GOOD);
        CountsAreNat(n);
        n := WorkerStep(w, n, before);
        n := Workers(n, before);
      }
    }

    /** mqw.put of item i, the next one, while worker threads run. */
    method Put(w: nat, i: nat, item: Item, ghost s: System, ghost before: seq<Worker>) returns (ghost n: System)
      requires w < |workers| && Underway(s, before)
      requires s.put == i < |s.items| && item == s.items[i] && w == Turn(i, |workers|)
      modifies `workers
      ensures Underway(n, before) && |workers| == old(|workers|)
      ensures n == s.(workers := n.workers, put := s.put + 1, log := n.log)
    {
      hide Fifo, Turn;
      workers := workers[w := workers[w].(requests := workers[w].requests + [Request(session - 1, i, item)])];
      StepFifo(s, before, ClusterSpec.Put);
      n := Apply(s, ClusterSpec.Put);
      n := Workers(n, before);
    }

    /** mqr.get for the next item: the reply is the one to the request at the head of the worker's line. */
    method Get(w: nat, ghost s: System, ghost before: seq<Worker>) returns (reply: Reply, ghost n: System)
      requires w < |workers| && Underway(s, before) && |before| > 0
      requires s.put == |s.items| && s.got < |s.items| && !s.gathered.KeyError? && w == Turn(s.got, |workers|)
      modifies `workers
      ensures Underway(n, before) && |workers| == old(|workers|)
      ensures reply == Expected(before, s.session, s.items)[s.got]
      ensures n == s.(workers := n.workers, got := s.got + 1, gathered := Merge(s.gathered, reply), log := n.log)
    {
      hide Fifo, Turn, Merge, RequestFor;
      n := AwaitReply(w, s, before);
      FifoWorkers(n, before);
      HeadIs(n, before, GOOD);
      reply := workers[w].replies[0].reply;
      workers := workers[w := workers[w].(replies := workers[w].replies[1..])];
      StepFifo(n, before, ClusterSpec.Get);
      n := Apply(n, ClusterSpec.Get);
    }

    /** Execute on a batch, whatever earlier calls have left in the queues. Outputs is None when the inputs differ in
        length; a KeyError is the one the source raises when a reply lacks an output. However the worker threads
        run, the result merges the replies at the heads of the lines; the queues end up clean exactly when they were
        clean before and no reply but the last lacks an output. */
    method Execute(inputs: seq<seq<Row>>) returns (id: nat, outputs: Option<Gathered>)
      requires Valid()
      modifies this
      ensures Valid() && id == old(session) && session == id + 1 && |workers| == old(|workers|)
      ensures outputs.Some? <==> SameLengths(inputs)
      ensures outputs.None? ==> workers == old(workers)
      ensures outputs.Some? ==>
        && Split(inputs).Some?
        && var items := Split(inputs).value;
        && ItemsOf(inputs, items)
        && var replies := Expected(old(workers), id, items);
        && outputs == Some(MergeAll(replies))
        && LeavesLines(old(workers), id, items, Served(replies), workers)
        && (Clean(workers) <==> Clean(old(workers)) && Served(replies) == |items|)
    {
      hide Fifo, Sound, Stale, MergeAll, Clean, Split, Merge, Turn, RequestFor, LeavesLines, Apply, InHand;
      id := session;
      session := session + 1;
      outputs := None;
      var split := Split(inputs);
      SplitIs(inputs);
      if split.None? {
        StillStale(workers, id);
        return;
      }
      ghost var items, before := split.value, workers;
      var batch := |split.value|;
      ghost var s := Begin(id, items, workers);
      BeginFifo(id, items, workers);
      ghost var expected := Expected(before, id, items);
      var i := 0;
      while i < batch
        invariant 0 <= i <= batch == |items| && session == id + 1 && |workers| == |before|
        invariant Underway(s, before)
        invariant s.session == id && s.items == items && s.put == i && s.got == 0 && s.gathered == Nothing
      {
        s := Put(Turn(i, |workers|), i, split.value[i], s, before);
        i := i + 1;
      }
      var gathered := Nothing;
      MergeNothing(expected);
      i := 0;
      while i < batch && !gathered.KeyError?
        invariant 0 <= i <= batch == |items| && session == id + 1 && |workers| == |before|
        invariant Underway(s, before)
        invariant s.session == id && s.items == items && s.put == batch && s.got == i && s.gathered == gathered
        invariant gathered == MergeAll(expected[..i])
        invariant i > 0 ==> !MergeAll(expected[..i - 1]).KeyError?
      {
        var reply;
        reply, s := Get(Turn(i, |workers|), s, before);
        MergeOneMore(expected, i);
        gathered := Merge(gathered, reply);
        i := i + 1;
      }
      outputs := Some(gathered);
      ServedIs(expected, i);
      FifoLeaves(s, before);
      CleanIff(before, id, items, i, workers);
      StaysStale(before, id, items, i, workers);
    }
  }

  lemma StillStale(workers: seq<Worker>, session: nat)
    requires Stale(workers, session)
    ensures Stale(workers, session + 1)
  {
  }

  lemma MergeNothing(replies: seq<Reply>)
    ensures MergeAll(replies[..0]) == Nothing
  {
  }

  lemma MergeOneMore(replies: seq<Reply>, i: nat)
    requires i < |replies|
    ensures MergeAll(replies[..i + 1]) == Merge(MergeAll(replies[..i]), replies[i])
  {
    assert replies[..i + 1][..i] == replies[..i];
  }

  lemma CountsAreNat(s: System)
    requires s.put <= |s.items|
    ensures Remaining(s) >= 0
  {
  }
}
