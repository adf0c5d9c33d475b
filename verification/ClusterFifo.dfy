/** A call of Execute whatever the calls before have left in the queues: each worker's queues are one line, and every
    reply is taken from its head. */
module ClusterFifo {
  import opened QCDefs
  import opened ClusterSpec
  import opened ClusterProofs

  /** The requests for items lo to hi that go to worker w. */
  function Own(session: nat, items: seq<Item>, w: nat, n: nat, hi: nat): (r: seq<Request>)
    requires n > 0 && hi <= |items|
    ensures |r| == Turns(w, n, hi)
  {
    if hi == 0 then []
    else
      Own(session, items, w, n, hi - 1)
      + if Turn(hi - 1, n) == w then [Request(session, hi - 1, items[hi - 1])] else []
  }

  /** How many of the first k items go to worker w. */
  function Turns(w: nat, n: nat, k: nat): nat
    requires n > 0
  {
    if k == 0 then 0 else Turns(w, n, k - 1) + if Turn(k - 1, n) == w then 1 else 0
  }

  /** All requests worker w has had in hand once `put` items were queued, from what it held before. */
  function Line(before: Worker, session: nat, items: seq<Item>, w: nat, n: nat, put: nat): (r: seq<Request>)
    requires n > 0 && put <= |items|
    ensures |r| == |InHand(before)| + Turns(w, n, put)
  {
    InHand(before) + Own(session, items, w, n, put)
  }

  /** What a worker holds is its line without the replies taken from it. */
  predicate InLine(s: System, before: seq<Worker>, w: nat)
    requires |s.workers| == |before| > 0 && w < |before| && s.put <= |s.items|
  {
    var line := Line(before[w], s.session, s.items, w, |before|, s.put);
    Turns(w, |before|, s.got) <= |line| && InHand(s.workers[w]) == line[Turns(w, |before|, s.got)..]
  }

  ghost predicate Fifo(s: System, before: seq<Worker>) {
    && |s.workers| == |before| > 0 && s.got <= s.put <= |s.items|
    && (s.got > 0 ==> s.put == |s.items|)
    && forall w :: 0 <= w < |before| ==> InLine(s, before, w)
  }

  /** Item i goes to worker i modulo their number: it is queued there, behind what is there, and nowhere else. */
  lemma PutGoes(s: System)
    requires |s.workers| > 0 && Enabled(s, Put)
    ensures
      && var n, w := Apply(s, Put), s.put % |s.workers|;
      && n.workers[w] == s.workers[w].(
           requests := s.workers[w].requests + [Request(s.session, s.put, s.items[s.put])])
      && (forall v :: 0 <= v < |s.workers| && v != w ==> n.workers[v] == s.workers[v])
      && n.put == s.put + 1 && n.got == s.got && n.gathered == s.gathered
  {
  }

  lemma BeginFifo(session: nat, items: seq<Item>, workers: seq<Worker>)
    requires |workers| > 0
    ensures Fifo(Begin(session, items, workers), workers)
  {
    forall w | 0 <= w < |workers| ensures InLine(Begin(session, items, workers), workers, w) {
      assert InHand(workers[w]) + [] == InHand(workers[w]);
    }
  }

  lemma {:induction false} TurnsGrow(w: nat, n: nat, k: nat, m: nat)
    requires n > 0 && k <= m
    ensures Turns(w, n, k) <= Turns(w, n, m)
    ensures k < m && Turn(k, n) == w ==> Turns(w, n, k) < Turns(w, n, m)
    decreases m
  {
    if k < m {
      TurnsGrow(w, n, k, m - 1);
    }
  }

  lemma PutFifo(s: System, before: seq<Worker>, w: nat)
    requires Fifo(s, before) && Enabled(s, Put) && w < |before|
    ensures InLine(Apply(s, Put), before, w)
  {
    assert InLine(s, before, w);
    var n := Apply(s, Put);
    var taken := Turns(w, |before|, s.got);
    var line := Line(before[w], s.session, s.items, w, |before|, s.put);
    var more := Line(before[w], s.session, s.items, w, |before|, s.put + 1);
    if Turn(s.put, |before|) == w {
      var r := Request(s.session, s.put, s.items[s.put]);
      assert more == line + [r];
      assert more[taken..] == line[taken..] + [r];
      assert InHand(n.workers[w]) == InHand(s.workers[w]) + [r];
    } else {
      assert more == line;
    }
  }

  /** A worker's own operations move nothing in its line. */
  lemma WorkerFifo(s: System, before: seq<Worker>, step: Step, w: nat)
    requires Fifo(s, before) && Enabled(s, step) && (step.Take? || step.Finish?) && w < |before|
    ensures InLine(Apply(s, step), before, w)
  {
    hide Own, Turns;
    assert InLine(s, before, w);
    assert InHand(Apply(s, step).workers[w]) == InHand(s.workers[w]);
  }

  lemma GetFifo(s: System, before: seq<Worker>, w: nat)
    requires Fifo(s, before) && Enabled(s, Get) && w < |before|
    ensures InLine(Apply(s, Get), before, w)
  {
    assert InLine(s, before, w);
    var n := Apply(s, Get);
    var line, taken := Line(before[w], s.session, s.items, w, |before|, s.put), Turns(w, |before|, s.got);
    assert Turns(w, |before|, s.got + 1) == taken + if Turn(s.got, |before|) == w then 1 else 0;
    GetHand(s, w);
    hide Own, Merge, Line, Turns, Apply, InHand;
    if w == Turn(s.got, |before|) {
      assert line[taken..][1..] == line[taken + 1..];
    }
  }

  lemma StepFifo(s: System, before: seq<Worker>, step: Step)
    requires Fifo(s, before) && Enabled(s, step)
    ensures Fifo(Apply(s, step), before) && Apply(s, step).session == s.session && Apply(s, step).items == s.items
  {
    hide InLine;
    forall w | 0 <= w < |before| ensures InLine(Apply(s, step), before, w) {
      match step
      case Put => PutFifo(s, before, w);
      case Get => GetFifo(s, before, w);
      case _ => WorkerFifo(s, before, step, w);
    }
  }

  lemma {:induction false} RunFifo(s: System, before: seq<Worker>, steps: seq<Step>)
    requires Fifo(s, before) && Run(s, steps).Some?
    ensures Fifo(Run(s, steps).value, before)
    ensures Run(s, steps).value.session == s.session && Run(s, steps).value.items == s.items
    decreases |steps|
  {
    hide Fifo, Apply, Enabled;
    if steps != [] {
      assert |s.workers| > 0 by { FifoWorkers(s, before); }
      StepFifo(s, before, steps[0]);
      FifoWorkers(Apply(s, steps[0]), before);
      RunFifo(Apply(s, steps[0]), before, steps[1..]);
    }
  }

  lemma FifoWorkers(s: System, before: seq<Worker>)
    requires Fifo(s, before)
    ensures |s.workers| == |before| > 0
  {
  }

  // ---- which reply answers which item ----

  /** The request whose reply Execute takes for item i. */
  function RequestFor(before: seq<Worker>, session: nat, items: seq<Item>, i: nat): Request
    requires |before| > 0 && i < |items|
  {
    var w := Turn(i, |before|);
    TurnsGrow(w, |before|, i, |items|);
    Line(before[w], session, items, w, |before|, |items|)[Turns(w, |before|, i)]
  }

  /** In every state the awaited worker holds the request at the head of its line, and some step is possible. */
  lemma HeadIs(s: System, before: seq<Worker>, reply: Reply)
    requires Fifo(s, before) && s.put == |s.items| && s.got < |s.items| && !s.gathered.KeyError?
    ensures var k := Turn(s.got, |before|);
      && InHand(s.workers[k]) != [] && InHand(s.workers[k])[0] == RequestFor(before, s.session, s.items, s.got)
      && (Enabled(s, Get) || Enabled(s, Finish(k, reply)) || Enabled(s, Take(k)))
      && (s.workers[k].replies != [] ==>
        s.workers[k].replies[0].request == RequestFor(before, s.session, s.items, s.got))
  {
    var k := Turn(s.got, |before|);
    TurnsGrow(k, |before|, s.got, |s.items|);
    assert InLine(s, before, k);
    hide Own, Turns;
    if s.workers[k].replies != [] {
      ReplyInHand(s.workers[k], 0);
    }
  }

  lemma {:induction false} OwnAt(session: nat, items: seq<Item>, w: nat, n: nat, hi: nat, i: nat)
    requires n > 0 && i < hi <= |items| && Turn(i, n) == w
    ensures Turns(w, n, i) < Turns(w, n, hi)
    ensures Own(session, items, w, n, hi)[Turns(w, n, i)] == Request(session, i, items[i])
    decreases hi
  {
    TurnsGrow(w, n, i, hi);
    if i < hi - 1 {
      OwnAt(session, items, w, n, hi - 1, i);
    }
  }

  /** Where a request stands among a worker's own says which item it is for. */
  lemma {:induction false} OwnTickets(session: nat, items: seq<Item>, w: nat, n: nat, hi: nat, j: nat)
    requires n > 0 && hi <= |items| && j < Turns(w, n, hi)
    ensures var r := Own(session, items, w, n, hi)[j];
      r.session == session && r.ticket < hi && Turn(r.ticket, n) == w && Turns(w, n, r.ticket) == j
    decreases hi
  {
    if j < Turns(w, n, hi - 1) {
      OwnTickets(session, items, w, n, hi - 1, j);
    }
  }

  /** Requests left by earlier calls. */
  predicate Stale(before: seq<Worker>, session: nat) {
    forall w :: 0 <= w < |before| ==> forall r <- InHand(before[w]) :: r.session < session
  }

  /** Item i is answered by its own reply if and only if its worker had nothing left from earlier calls; otherwise by an
      old one, or by that to an earlier item of the same worker. */
  lemma AnsweredIff(before: seq<Worker>, session: nat, items: seq<Item>, i: nat)
    requires |before| > 0 && i < |items| && Stale(before, session)
    ensures
      && var w := Turn(i, |before|);
      && var r := RequestFor(before, session, items, i);
      && (r == Request(session, i, items[i]) <==> InHand(before[w]) == [])
      && (InHand(before[w]) != [] ==> r.session < session || r.ticket < i)
  {
    var n, w := |before|, Turn(i, |before|);
    var left, t := |InHand(before[w])|, Turns(w, n, i);
    TurnsGrow(w, n, i, |items|);
    if t < left {
      assert RequestFor(before, session, items, i) == InHand(before[w])[t];
    } else {
      OwnTickets(session, items, w, n, |items|, t - left);
      var r := Own(session, items, w, n, |items|)[t - left];
      assert RequestFor(before, session, items, i) == r;
      if left == 0 {
        OwnAt(session, items, w, n, |items|, i);
      } else if r.ticket >= i {
        TurnsGrow(w, n, i, r.ticket);
      }
    }
  }

  /** From clean queues every item is answered by its own reply. */
  lemma CleanAnswers(before: seq<Worker>, session: nat, items: seq<Item>)
    requires |before| > 0 && Clean(before)
    ensures forall i :: 0 <= i < |items| ==> RequestFor(before, session, items, i) == Request(session, i, items[i])
  {
    forall i | 0 <= i < |items| ensures RequestFor(before, session, items, i) == Request(session, i, items[i]) {
      AnsweredIff(before, session, items, i);
    }
  }

  /** Every run from any queues: when Execute can take a reply, it is the one to the request at the head of the line. */
  lemma TakesHead(session: nat, items: seq<Item>, workers: seq<Worker>, steps: seq<Step>)
    requires |workers| > 0 && Run(Begin(session, items, workers), steps).Some?
    ensures var s := Run(Begin(session, items, workers), steps).value;
      |s.workers| == |workers| && s.items == items &&
      (Enabled(s, Get) ==>
        s.workers[Turn(s.got, |workers|)].replies[0].request == RequestFor(workers, session, items, s.got))
  {
    BeginFifo(session, items, workers);
    RunFifo(Begin(session, items, workers), workers, steps);
    var s := Run(Begin(session, items, workers), steps).value;
    if Enabled(s, Get) {
      HeadIs(s, workers, GOOD);
    }
  }

  // ---- what is left ----

  /** What a call that took m replies has left in the workers' hands. */
  ghost predicate LeavesLines(before: seq<Worker>, session: nat, items: seq<Item>, m: nat, after: seq<Worker>) {
    && |after| == |before| > 0 && m <= |items|
    && forall w :: 0 <= w < |before| ==>
      && Turns(w, |before|, m) <= |Line(before[w], session, items, w, |before|, |items|)|
      && InHand(after[w]) == Line(before[w], session, items, w, |before|, |items|)[Turns(w, |before|, m)..]
  }

  lemma FifoLeaves(s: System, before: seq<Worker>)
    requires Fifo(s, before) && s.put == |s.items|
    ensures LeavesLines(before, s.session, s.items, s.got, s.workers)
  {
    hide Own, Turns;
    forall w | 0 <= w < |before|
      ensures Turns(w, |before|, s.got) <= |Line(before[w], s.session, s.items, w, |before|, |s.items|)|
      ensures InHand(s.workers[w]) ==
        Line(before[w], s.session, s.items, w, |before|, |s.items|)[Turns(w, |before|, s.got)..]
    {
      assert InLine(s, before, w);
    }
  }

  lemma IdleHand(w: Worker)
    ensures InHand(w) == [] <==> w == IDLE
  {
    assert |InHand(w)| == |w.replies| + (if w.busy.Some? then 1 else 0) + |w.requests|;
  }

  /** The queues are clean after a call if and only if they were clean before and it took all its replies. So work that
      a call has left behind is never made up for by later calls. */
  lemma CleanIff(before: seq<Worker>, session: nat, items: seq<Item>, m: nat, after: seq<Worker>)
    requires LeavesLines(before, session, items, m, after)
    ensures Clean(after) <==> Clean(before) && m == |items|
  {
    hide InHand, Own;
    var n := |before|;
    forall w | 0 <= w < n
      ensures |InHand(after[w])| == |InHand(before[w])| + Turns(w, n, |items|) - Turns(w, n, m)
      ensures Turns(w, n, m) <= Turns(w, n, |items|)
      ensures (InHand(after[w]) == [] <==> after[w] == IDLE) && (InHand(before[w]) == [] <==> before[w] == IDLE)
    {
      IdleHand(after[w]);
      IdleHand(before[w]);
      TurnsGrow(w, n, m, |items|);
    }
    if m < |items| {
      TurnsGrow(Turn(m, n), n, m, |items|);
      assert after[Turn(m, n)] != IDLE;
    }
    forall w | 0 <= w < n && before[w] != IDLE ensures after[w] != IDLE {
    }
  }

  /** And what is left is old by the next call. */
  lemma StaysStale(before: seq<Worker>, session: nat, items: seq<Item>, m: nat, after: seq<Worker>)
    requires LeavesLines(before, session, items, m, after) && Stale(before, session)
    ensures Stale(after, session + 1)
  {
    hide InHand, Turns;
    var n := |before|;
    forall w | 0 <= w < n ensures forall r <- InHand(after[w]) :: r.session < session + 1 {
      var own := Own(session, items, w, n, |items|);
      forall j | 0 <= j < |own| ensures own[j].session == session {
        OwnTickets(session, items, w, n, |items|, j);
      }
      var line := Line(before[w], session, items, w, n, |items|);
      assert forall r <- line :: r in InHand(before[w]) || r in own;
      assert forall r <- InHand(after[w]) :: r in line;
    }
  }
}
