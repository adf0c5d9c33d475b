/** The gathered result is in input order for every interleaving, no wait is in vain, and every run ends. */
module ClusterProofs {
  import opened QCDefs
  import opened ClusterSpec

  /** The tickets worker w owes a reply for when items lo..hi are under way, oldest first. */
  function Owed(w: nat, n: nat, lo: nat, hi: nat): seq<nat>
    requires n > 0
    decreases hi
  {
    if hi <= lo then []
    else Owed(w, n, lo, hi - 1) + if Turn(hi - 1, n) == w then [hi - 1] else []
  }

  lemma {:induction false} OwedFirst(w: nat, n: nat, lo: nat, hi: nat)
    requires n > 0 && lo < hi
    ensures Owed(w, n, lo, hi) == (if Turn(lo, n) == w then [lo] else []) + Owed(w, n, lo + 1, hi)
    decreases hi
  {
    if lo + 1 < hi {
      OwedFirst(w, n, lo, hi - 1);
    } else {
      assert Owed(w, n, lo, lo) == [];
    }
  }

  /** What is between a worker's two queues, oldest first. */
  function Tickets(r: seq<Request>): seq<nat> {
    seq(|r|, i requires 0 <= i < |r| => r[i].ticket)
  }

  function InHand(w: Worker): seq<Request> {
    seq(|w.replies|, i requires 0 <= i < |w.replies| => w.replies[i].request)
    + (if w.busy.Some? then [w.busy.value] else [])
    + w.requests
  }

  function Replies(s: System): seq<Reply>
    requires forall i :: 0 <= i < s.got ==> i in s.log
  {
    seq(s.got, i requires 0 <= i < s.got && i in s.log => s.log[i].reply)
  }

  ghost predicate WorkerOk(s: System, w: nat)
    requires w < |s.workers|
  {
    && Tickets(InHand(s.workers[w])) == Owed(w, |s.workers|, s.got, s.put)
    && (forall r <- InHand(s.workers[w]) ::
         r.ticket < |s.items| && r.item == s.items[r.ticket] && r.session == s.session)
    && (forall a <- s.workers[w].replies :: a.request.ticket in s.log && s.log[a.request.ticket] == a)
  }

  ghost predicate Inv(s: System) {
    && |s.workers| > 0 && s.got <= s.put <= |s.items|
    && (s.got > 0 ==> s.put == |s.items|)
    && (forall w :: 0 <= w < |s.workers| ==> WorkerOk(s, w))
    && (forall i :: 0 <= i < s.got ==> i in s.log)
    && (forall i <- s.log :: i < |s.items| && s.log[i].request == Request(s.session, i, s.items[i]))
    && s.gathered == MergeAll(Replies(s))
  }

  lemma BeginOk(session: nat, items: seq<Item>, workers: seq<Worker>)
    requires |workers| > 0 && Clean(workers)
    ensures Inv(Begin(session, items, workers))
  {
  }

  lemma PutKeeps(s: System)
    requires Inv(s) && Enabled(s, Put)
    ensures Inv(Apply(s, Put))
  {
    var n := Apply(s, Put);
    var k := Turn(s.put, |s.workers|);
    forall w | 0 <= w < |s.workers| ensures WorkerOk(n, w) {
      assert WorkerOk(s, w);
      if w == k {
        assert InHand(n.workers[w]) == InHand(s.workers[w]) + [Request(s.session, s.put, s.items[s.put])];
      }
    }
  }

  lemma TakeKeeps(s: System, k: nat)
    requires Inv(s) && Enabled(s, Take(k))
    ensures Inv(Apply(s, Take(k)))
  {
    var n := Apply(s, Take(k));
    forall w | 0 <= w < |s.workers| ensures WorkerOk(n, w) {
      assert WorkerOk(s, w);
      assert InHand(n.workers[w]) == InHand(s.workers[w]);
    }
  }

  /** Ascending tickets in a range, all of one worker's share. */
  predicate Share(o: seq<nat>, w: nat, n: nat, lo: nat, hi: nat)
    requires n > 0
  {
    && (forall i :: 0 <= i < |o| ==> lo <= o[i] < hi)
    && (forall i :: 0 <= i < |o| ==> Turn(o[i], n) == w)
    && (forall i, j :: 0 <= i < j < |o| ==> o[i] < o[j])
  }

  lemma {:induction false} OwedIs(w: nat, n: nat, lo: nat, hi: nat)
    requires n > 0
    ensures Share(Owed(w, n, lo, hi), w, n, lo, hi)
    decreases hi
  {
    if lo < hi {
      OwedIs(w, n, lo, hi - 1);
      ShareOn(Owed(w, n, lo, hi - 1), w, n, lo, hi);
    }
  }

  lemma ShareOn(o: seq<nat>, w: nat, n: nat, lo: nat, hi: nat)
    requires n > 0 && lo < hi && Share(o, w, n, lo, hi - 1)
    ensures Share(o + if Turn(hi - 1, n) == w then [hi - 1] else [], w, n, lo, hi)
  {
  }

  /** The requests in a worker's hands are distinct items not gathered yet, of that worker's share. */
  lemma InHandIs(s: System, w: nat)
    requires |s.workers| > 0 && w < |s.workers| && WorkerOk(s, w)
    ensures Share(Tickets(InHand(s.workers[w])), w, |s.workers|, s.got, s.put)
  {
    OwedIs(w, |s.workers|, s.got, s.put);
  }

  lemma ReplyInHand(w: Worker, j: nat)
    requires j < |w.replies|
    ensures j < |InHand(w)| && InHand(w)[j] == w.replies[j].request
  {
  }

  /** The request being answered is none of those already answered and still queued. */
  lemma BusyIsNew(s: System, k: nat, w: nat)
    requires |s.workers| > 0 && k < |s.workers| && w < |s.workers| && WorkerOk(s, k) && WorkerOk(s, w)
    requires s.workers[k].busy.Some?
    ensures s.got <= s.workers[k].busy.value.ticket
    ensures forall a <- s.workers[w].replies :: a.request.ticket != s.workers[k].busy.value.ticket
  {
    InHandIs(s, k);
    InHandIs(s, w);
    var p := |s.workers[k].replies|;
    assert InHand(s.workers[k])[p] == s.workers[k].busy.value;
    assert Tickets(InHand(s.workers[k]))[p] == s.workers[k].busy.value.ticket;
    forall j | 0 <= j < |s.workers[w].replies|
      ensures s.workers[w].replies[j].request.ticket != s.workers[k].busy.value.ticket
    {
      ReplyInHand(s.workers[w], j);
      assert Tickets(InHand(s.workers[w]))[j] == s.workers[w].replies[j].request.ticket;
    }
  }

  lemma FinishWorker(s: System, k: nat, reply: Reply, w: nat)
    requires Inv(s) && Enabled(s, Finish(k, reply)) && w < |s.workers|
    ensures WorkerOk(Apply(s, Finish(k, reply)), w)
  {
    var n := Apply(s, Finish(k, reply));
    assert WorkerOk(s, w) && WorkerOk(s, k);
    assert InHand(n.workers[w]) == InHand(s.workers[w]);
    BusyIsNew(s, k, w);
  }

  lemma FinishKeeps(s: System, k: nat, reply: Reply)
    requires Inv(s) && Enabled(s, Finish(k, reply))
    ensures Inv(Apply(s, Finish(k, reply)))
  {
    var n := Apply(s, Finish(k, reply));
    forall w | 0 <= w < |s.workers| ensures WorkerOk(n, w) {
      FinishWorker(s, k, reply, w);
    }
    assert WorkerOk(s, k);
    BusyIsNew(s, k, k);
    assert InHand(s.workers[k])[|s.workers[k].replies|] == s.workers[k].busy.value;
    assert s.workers[k].busy.value in InHand(s.workers[k]);
    assert Replies(n) == Replies(s);
  }

  lemma GetHand(s: System, w: nat)
    requires |s.workers| > 0 && Enabled(s, Get) && w < |s.workers|
    ensures
      && var n := Apply(s, Get);
      && n.items == s.items && n.put == s.put && n.got == s.got + 1 && n.session == s.session && n.log == s.log
      && (if w == Turn(s.got, |s.workers|) then
            InHand(s.workers[w]) != [] && InHand(n.workers[w]) == InHand(s.workers[w])[1..]
          else n.workers[w] == s.workers[w])
  {
    hide Merge;
    if w == Turn(s.got, |s.workers|) {
      assert InHand(Apply(s, Get).workers[w]) == InHand(s.workers[w])[1..];
    }
  }

  lemma GetWorker(s: System, w: nat)
    requires Inv(s) && Enabled(s, Get) && w < |s.workers|
    ensures WorkerOk(Apply(s, Get), w)
  {
    assert WorkerOk(s, w);
    var n := Apply(s, Get);
    OwedFirst(w, |s.workers|, s.got, s.put);
    GetHand(s, w);
    assert forall a <- n.workers[w].replies :: a in s.workers[w].replies;
    hide Apply, InHand, Owed;
    if w == Turn(s.got, |s.workers|) {
      assert Tickets(InHand(n.workers[w])) == Tickets(InHand(s.workers[w]))[1..];
    }
  }

  /** The next reply of the worker whose turn it is belongs to the next item. */
  lemma NextReply(s: System)
    requires Inv(s) && Enabled(s, Get)
    ensures var a := s.workers[Turn(s.got, |s.workers|)].replies[0];
      a.request.ticket == s.got && s.got in s.log && s.log[s.got] == a
  {
    var k := Turn(s.got, |s.workers|);
    assert WorkerOk(s, k);
    OwedFirst(k, |s.workers|, s.got, s.put);
    ReplyInHand(s.workers[k], 0);
    assert Tickets(InHand(s.workers[k]))[0] == s.got;
  }

  lemma GetKeeps(s: System)
    requires Inv(s) && Enabled(s, Get)
    ensures Inv(Apply(s, Get))
  {
    var n := Apply(s, Get);
    forall w | 0 <= w < |s.workers| ensures WorkerOk(n, w) {
      GetWorker(s, w);
    }
    NextReply(s);
    assert Replies(n) == Replies(s) + [s.log[s.got].reply];
    assert Replies(n)[..s.got] == Replies(s);
  }

  lemma StepKeeps(s: System, step: Step)
    requires Inv(s) && Enabled(s, step)
    ensures Inv(Apply(s, step))
  {
    match step
    case Put => PutKeeps(s);
    case Take(k) => TakeKeeps(s, k);
    case Finish(k, reply) => FinishKeeps(s, k, reply);
    case Get => GetKeeps(s);
  }

  lemma {:induction false} Safety(s: System, steps: seq<Step>)
    requires Inv(s) && Run(s, steps).Some?
    ensures Inv(Run(s, steps).value)
    ensures Run(s, steps).value.items == s.items && |Run(s, steps).value.workers| == |s.workers|
    decreases |steps|
  {
    if steps != [] {
      StepKeeps(s, steps[0]);
      Safety(Apply(s, steps[0]), steps[1..]);
    }
  }

  // ---- what was gathered ----

  /** The rows of output k over all replies, in order. */
  function Rows(replies: seq<Reply>, k: string): seq<Row>
    requires forall r <- replies :: k in r.outputs
  {
    if replies == [] then []
    else Rows(replies[..|replies| - 1], k) + replies[|replies| - 1].outputs[k]
  }

  /** Gathering replies succeeds iff no later one lacks an output of the first; then the result has the first
      reply's time stamp and outputs, each the concatenation of all replies' rows in order. */
  lemma {:induction false} MergeAllIs(replies: seq<Reply>)
    requires replies != []
    ensures MergeAll(replies).Result? <==> forall r <- replies :: replies[0].outputs.Keys <= r.outputs.Keys
    ensures !MergeAll(replies).Nothing?
    ensures MergeAll(replies).Result? ==>
      var g := MergeAll(replies).reply;
      && g.timestamp == replies[0].timestamp && g.outputs.Keys == replies[0].outputs.Keys
      && (forall k <- g.outputs :: (forall r <- replies :: k in r.outputs) && g.outputs[k] == Rows(replies, k))
  {
    var init, last := replies[..|replies| - 1], replies[|replies| - 1];
    assert replies == init + [last];
    assert forall r :: r in replies <==> r in init || r == last;
    if init == [] {
      assert MergeAll(init) == Nothing;
    } else {
      MergeAllIs(init);
    }
  }

  /** How many replies Execute takes: up to the first that lacks an output. */
  function Served(replies: seq<Reply>): (m: nat)
    ensures m <= |replies|
  {
    if replies == [] then 0
    else
      var init := replies[..|replies| - 1];
      if MergeAll(init).KeyError? then Served(init) else |replies|
  }

  /** Taking the replies in turn until there are no more or a KeyError is raised gives what all of them give. */
  lemma {:induction false} ServedIs(replies: seq<Reply>, m: nat)
    requires m <= |replies| && (m < |replies| ==> MergeAll(replies[..m]).KeyError?)
    requires m > 0 ==> !MergeAll(replies[..m - 1]).KeyError?
    ensures MergeAll(replies[..m]) == MergeAll(replies) && Served(replies) == m
  {
    if m == |replies| {
      assert replies[..m] == replies;
    } else {
      var init := replies[..|replies| - 1];
      assert init[..m] == replies[..m];
      assert m > 0 ==> init[..m - 1] == replies[..m - 1];
      ServedIs(init, m);
    }
  }

  lemma {:induction false} KeyErrorStays(replies: seq<Reply>, m: nat)
    requires m <= |replies| && MergeAll(replies[..m]).KeyError?
    ensures MergeAll(replies).KeyError?
  {
    if m < |replies| {
      assert replies[..|replies| - 1][..m] == replies[..m];
      KeyErrorStays(replies[..|replies| - 1], m);
    } else {
      assert replies[..m] == replies;
    }
  }

  /** Served is where the first KeyError arises. */
  lemma {:induction false} ServedMeans(replies: seq<Reply>)
    ensures Served(replies) < |replies| ==> MergeAll(replies[..Served(replies)]).KeyError?
    ensures forall m :: 0 <= m < Served(replies) ==> !MergeAll(replies[..m]).KeyError?
  {
    if replies != [] {
      var init := replies[..|replies| - 1];
      ServedMeans(init);
      assert forall m :: 0 <= m <= |init| ==> init[..m] == replies[..m];
      forall m | 0 <= m <= |init| && MergeAll(init[..m]).KeyError? ensures MergeAll(init).KeyError? {
        KeyErrorStays(init, m);
      }
    }
  }

  // ---- progress ----

  /** How many queue operations of a worker and of Execute are still to come for what the worker holds. */
  function Weight(w: Worker): nat {
    3 * |w.requests| + (if w.busy.Some? then 2 else 0) + |w.replies|
  }

  function TotalWeight(workers: seq<Worker>): nat {
    if workers == [] then 0 else TotalWeight(workers[..|workers| - 1]) + Weight(workers[|workers| - 1])
  }

  lemma {:induction false} WeightUpdate(workers: seq<Worker>, k: nat, w: Worker)
    requires k < |workers|
    ensures TotalWeight(workers[k := w]) == TotalWeight(workers) - Weight(workers[k]) + Weight(w)
  {
    var u := workers[k := w];
    if k == |workers| - 1 {
      assert u[..k] == workers[..k];
    } else {
      assert u[..|workers| - 1] == workers[..|workers| - 1][k := w];
      WeightUpdate(workers[..|workers| - 1], k, w);
    }
  }

  function Remaining(s: System): int {
    4 * (|s.items| - s.put) + TotalWeight(s.workers)
  }

  /** Every step, of whatever thread, uses up one of the operations the batch needs. */
  lemma StepCounts(s: System, step: Step)
    requires |s.workers| > 0 && Enabled(s, step)
    ensures Remaining(Apply(s, step)) == Remaining(s) - 1
  {
    var k := match step
      case Put => Turn(s.put, |s.workers|)
      case Get => Turn(s.got, |s.workers|)
      case Take(w) => w
      case Finish(w, _) => w;
    WeightUpdate(s.workers, k, Apply(s, step).workers[k]);
    assert Apply(s, step).workers == s.workers[k := Apply(s, step).workers[k]];
  }

  lemma {:induction false} RunCounts(s: System, steps: seq<Step>)
    requires |s.workers| > 0 && Run(s, steps).Some?
    ensures Remaining(Run(s, steps).value) == Remaining(s) - |steps|
    decreases |steps|
  {
    if steps != [] {
      StepCounts(s, steps[0]);
      RunCounts(Apply(s, steps[0]), steps[1..]);
    }
  }

  lemma {:induction false} CleanWeight(workers: seq<Worker>)
    ensures TotalWeight(workers) == 0 <==> Clean(workers)
  {
    if workers != [] {
      var init := workers[..|workers| - 1];
      CleanWeight(init);
      assert forall w :: 0 <= w < |init| ==> init[w] == workers[w];
      assert Weight(workers[|workers| - 1]) == 0 <==> workers[|workers| - 1] == IDLE;
    }
  }

  /** When Execute waits for item `got`, the worker it waits for holds that item: as the next reply, in the
      inference, or as the next request. So the wait is never in vain, and some step is possible. */
  lemma WaitIsOwed(s: System, reply: Reply)
    requires Inv(s) && s.put == |s.items| && s.got < |s.items| && !s.gathered.KeyError?
    ensures var k := Turn(s.got, |s.workers|);
      && InHand(s.workers[k]) != [] && InHand(s.workers[k])[0] == Request(s.session, s.got, s.items[s.got])
      && (Enabled(s, Get) || Enabled(s, Finish(k, reply)) || Enabled(s, Take(k)))
  {
    var k := Turn(s.got, |s.workers|);
    assert WorkerOk(s, k);
    OwedFirst(k, |s.workers|, s.got, s.put);
    assert Tickets(InHand(s.workers[k]))[0] == s.got;
    assert InHand(s.workers[k])[0] in InHand(s.workers[k]);
  }

  predicate Finished(s: System) { s.got == |s.items| }

  /** When everything was gathered, no queue holds anything and no worker is busy. */
  lemma FinishedClean(s: System)
    requires Inv(s) && Finished(s)
    ensures Clean(s.workers) && s.put == |s.items|
  {
    forall w | 0 <= w < |s.workers| ensures s.workers[w] == IDLE {
      assert WorkerOk(s, w);
      assert Owed(w, |s.workers|, s.got, s.put) == [];
      assert |InHand(s.workers[w])| == |Tickets(InHand(s.workers[w]))| == 0;
    }
  }

  // ---- the whole call ----

  /** For every batch, every number of workers and every interleaving from clean queues: the run has at most four
      queue operations per item and can go on until Execute returns or raises; when everything is gathered, all
      queues are empty and the result is the replies to the items merged in input order. */
  lemma ExecuteInOrder(session: nat, items: seq<Item>, workers: seq<Worker>, steps: seq<Step>, reply: Reply)
    requires |workers| > 0 && Clean(workers) && Run(Begin(session, items, workers), steps).Some?
    ensures var s := Run(Begin(session, items, workers), steps).value;
      && |s.workers| == |workers| && s.items == items && s.got <= |items|
      && |steps| <= 4 * |items|
      && (!Finished(s) && !s.gathered.KeyError? ==>
        var k := Turn(s.got, |workers|);
        exists step <- {Put, Get, Take(k), Finish(k, reply)} :: Enabled(s, step))
      && (forall i :: 0 <= i < s.got ==> i in s.log && s.log[i].request.item == items[i])
      && s.gathered == MergeAll(Replies(s))
      && (Finished(s) ==> Clean(s.workers) && |steps| == 4 * |items|)
  {
    var b := Begin(session, items, workers);
    var s := Run(b, steps).value;
    BeginOk(session, items, workers);
    Safety(b, steps);
    RunCounts(b, steps);
    CleanWeight(workers);
    CleanWeight(s.workers);
    if Finished(s) {
      FinishedClean(s);
    } else if s.put < |items| {
      assert Enabled(s, Put);
    } else if !s.gathered.KeyError? {
      WaitIsOwed(s, reply);
    }
  }

  /** A reply that lacks an output stops Execute with a KeyError. Unless it was the reply to the last item, the
      workers are left with requests of this batch, and the worker whose turn it was will offer the next item's
      old reply first to the next call. */
  lemma AbortLeavesWork(s: System)
    requires Inv(s) && s.gathered.KeyError?
    ensures s.put == |s.items|
    ensures Clean(s.workers) <==> s.got == |s.items|
    ensures s.got < |s.items| ==>
      InHand(s.workers[Turn(s.got, |s.workers|)]) != [] &&
      InHand(s.workers[Turn(s.got, |s.workers|)])[0] == Request(s.session, s.got, s.items[s.got])
  {
    assert s.got > 0;
    if s.got == |s.items| {
      FinishedClean(s);
    } else {
      var k := Turn(s.got, |s.workers|);
      assert WorkerOk(s, k);
      OwedFirst(k, |s.workers|, s.got, s.put);
      assert Tickets(InHand(s.workers[k]))[0] == s.got;
      assert InHand(s.workers[k])[0] in InHand(s.workers[k]);
    }
  }

  const GOOD := Reply(7, map["out" := [[1]]])
  const POOR := Reply(8, map[])

  const ABORTING := [Put, Put, Put, Take(0), Finish(0, GOOD), Get, Take(0), Finish(0, POOR), Get]

  /** A KeyError with work left, reached by a run: one worker, three items, and a second reply without the output
      of the first. The third item is still queued. */
  lemma AbortRun(a: Item, b: Item, c: Item)
    ensures Run(Begin(0, [a, b, c], [IDLE]), ABORTING) == Some(Aborted(a, b, c))
  {
    hide Run;
    var q0, q1, q2 := Request(0, 0, a), Request(0, 1, b), Request(0, 2, c);
    var items := [a, b, c];
    var log := map[0 := Answer(q0, GOOD)];
    FirstReply(a, b, c);
    var s5 := Alone(0, items, Worker([q1, q2], None, [Answer(q0, GOOD)]), 3, 0, Nothing, log);
    var s6 := Alone(0, items, Worker([q1, q2], None, []), 3, 1, Result(GOOD), log);
    Goes(s5, ABORTING, 5, s6);
    var s7 := Alone(0, items, Worker([q2], Some(q1), []), 3, 1, Result(GOOD), log);
    Goes(s6, ABORTING, 6, s7);
    var s8 := Alone(0, items, Worker([q2], None, [Answer(q1, POOR)]), 3, 1, Result(GOOD), log[1 := Answer(q1, POOR)]);
    Goes(s7, ABORTING, 7, s8);
    assert "out" in GOOD.outputs.Keys && "out" !in POOR.outputs.Keys;
    assert s8.log == Aborted(a, b, c).log;
    Goes(s8, ABORTING, 8, Aborted(a, b, c));
    RunEnds(Aborted(a, b, c), ABORTING);
    assert ABORTING[0..] == ABORTING;
  }

  lemma FirstReply(a: Item, b: Item, c: Item)
    ensures var q0, q1, q2 := Request(0, 0, a), Request(0, 1, b), Request(0, 2, c);
      Run(Begin(0, [a, b, c], [IDLE]), ABORTING[0..])
      == Run(Alone(0, [a, b, c], Worker([q1, q2], None, [Answer(q0, GOOD)]), 3, 0, Nothing, map[0 := Answer(q0, GOOD)]),
             ABORTING[5..])
  {
    hide Run;
    var q0, q1, q2 := Request(0, 0, a), Request(0, 1, b), Request(0, 2, c);
    var items := [a, b, c];
    var log := map[0 := Answer(q0, GOOD)];
    var s0 := Begin(0, items, [IDLE]);
    var s1 := Alone(0, items, Worker([q0], None, []), 1, 0, Nothing, map[]);
    Goes(s0, ABORTING, 0, s1);
    var s2 := Alone(0, items, Worker([q0, q1], None, []), 2, 0, Nothing, map[]);
    Goes(s1, ABORTING, 1, s2);
    var s3 := Alone(0, items, Worker([q0, q1, q2], None, []), 3, 0, Nothing, map[]);
    Goes(s2, ABORTING, 2, s3);
    var s4 := Alone(0, items, Worker([q1, q2], Some(q0), []), 3, 0, Nothing, map[]);
    Goes(s3, ABORTING, 3, s4);
    var s5 := Alone(0, items, Worker([q1, q2], None, [Answer(q0, GOOD)]), 3, 0, Nothing, log);
    Goes(s4, ABORTING, 4, s5);
  }

  /** The next call is answered with the reply to the item left behind, and leaves its own. */
  lemma StaleReply(a: Item, b: Item, c: Item, d: Item, stale: Reply)
    ensures var steps := [Put, Take(0), Finish(0, stale), Get];
      var left := Worker([Request(1, 0, d)], None, []);
      Run(Begin(1, [d], Aborted(a, b, c).workers), steps)
      == Some(Alone(1, [d], left, 1, 1, Result(stale), map[2 := Answer(Request(0, 2, c), stale)]))
  {
    hide Run;
    var steps := [Put, Take(0), Finish(0, stale), Get];
    var q2, q := Request(0, 2, c), Request(1, 0, d);
    var s0 := Begin(1, [d], Aborted(a, b, c).workers);
    var s1 := Alone(1, [d], Worker([q2, q], None, []), 1, 0, Nothing, map[]);
    Goes(s0, steps, 0, s1);
    var s2 := Alone(1, [d], Worker([q], Some(q2), []), 1, 0, Nothing, map[]);
    Goes(s1, steps, 1, s2);
    var s3 := Alone(1, [d], Worker([q], None, [Answer(q2, stale)]), 1, 0, Nothing, map[2 := Answer(q2, stale)]);
    Goes(s2, steps, 2, s3);
    var s4 := Alone(1, [d], Worker([q], None, []), 1, 1, Result(stale), map[2 := Answer(q2, stale)]);
    Goes(s3, steps, 3, s4);
    RunEnds(s4, steps);
    assert steps[0..] == steps;
  }

  function Alone(session: nat, items: seq<Item>, w: Worker, put: nat, got: nat, g: Gathered,
                 log: map<nat, Answer>): System
  {
    System(session, items, [w], put, got, g, log)
  }

  function Aborted(a: Item, b: Item, c: Item): System {
    Alone(0, [a, b, c], Worker([Request(0, 2, c)], None, []), 3, 2, KeyError,
          map[0 := Answer(Request(0, 0, a), GOOD), 1 := Answer(Request(0, 1, b), POOR)])
  }

  /** One step of a run with a single worker. */
  lemma Goes(s: System, steps: seq<Step>, i: nat, n: System)
    requires |s.workers| == 1 == |n.workers| && i < |steps| && Enabled(s, steps[i])
    requires var m := Apply(s, steps[i]);
      m.workers[0] == n.workers[0] && m.(workers := n.workers) == n
    ensures Run(s, steps[i..]) == Run(n, steps[i + 1..])
  {
    assert Apply(s, steps[i]).workers == n.workers;
    assert steps[i..][1..] == steps[i + 1..];
  }

  lemma RunEnds(s: System, steps: seq<Step>)
    requires |s.workers| > 0
    ensures Run(s, steps[|steps|..]) == Some(s)
  {
  }

  // ---- calls in a row ----

  /** A call as it ran: its items and the steps taken while it was under way. */
  datatype Call = Call(session: nat, items: seq<Item>, steps: seq<Step>)

  /** Where each of the calls ended, each beginning with the queues the one before has left; None when one of them
      cannot run so, or is followed by another although it has not finished. */
  function Session(workers: seq<Worker>, calls: seq<Call>): Option<seq<System>>
    requires |workers| > 0
    decreases |calls|
  {
    if calls == [] then Some([])
    else
      var s := Run(Begin(calls[0].session, calls[0].items, workers), calls[0].steps);
      if s.None? || |s.value.workers| == 0 || (|calls| > 1 && !Finished(s.value)) then None
      else
        var rest := Session(s.value.workers, calls[1..]);
        if rest.None? then None else Some([s.value] + rest.value)
  }

  /** Calls in a row, each gathering all its replies before the next begins, do not mix: what each has gathered are
      the replies to its own items in order. */
  lemma {:induction false} SessionInOrder(workers: seq<Worker>, calls: seq<Call>, c: nat)
    requires |workers| > 0 && Clean(workers) && Session(workers, calls).Some? && c < |calls|
    ensures |Session(workers, calls).value| == |calls|
    ensures var s := Session(workers, calls).value[c];
      && s.items == calls[c].items && s.got <= |s.items| && (c + 1 < |calls| ==> Finished(s))
      && (forall i :: 0 <= i < s.got ==> i in s.log && s.log[i].request.item == calls[c].items[i])
      && s.gathered == MergeAll(Replies(s))
      && (Finished(s) ==> Clean(s.workers))
    decreases |calls|
  {
    var s := Run(Begin(calls[0].session, calls[0].items, workers), calls[0].steps).value;
    ExecuteInOrder(calls[0].session, calls[0].items, workers, calls[0].steps, GOOD);
    assert Session(workers, calls).value[0] == s;
    if |calls| > 1 {
      SessionInOrder(s.workers, calls[1..], if c > 0 then c - 1 else 0);
    } else {
      assert Session(s.workers, calls[1..]) == Some([]);
    }
  }
}
