/** Safety of the buffer exchange over every interleaving. */
module VidcBufferProofs {
  import opened QCDefs
  import opened VidcBufferSpec

  // ---- one critical section ----

  /** A submission is accepted iff the handle is not in use and has, or still gets, an entry; then nothing but
      that entry changes and its flag is set. */
  lemma MarkIs(p: Port, f: Frame)
    ensures var m := Mark(p, f);
      && (m.status == Ok <==> !Used(p, f.handle) && (f.handle in p.infos || (p.dynamic && |p.infos| < p.bufNum)))
      && (m.status == Ok ==>
           Used(m.port, f.handle) && m.port == p.(infos := p.infos[f.handle := m.port.infos[f.handle]]))
      && (m.status != Ok ==> m.status == NoMem && m.port == p)
  {
  }

  /** What an accepted submission stores: an input its time rounded down to a whole microsecond and its mark data; an
      output the same unrounded in dynamic mode, and nothing in static mode; a new entry all of the frame. */
  lemma MarkStores(p: Port, f: Frame)
    requires Mark(p, f).status == Ok
    ensures var d := Mark(p, f).port.infos[f.handle].desc;
      && (p.side == Input ==> d.timestampNs == f.timestampNs - f.timestampNs % 1000 && d.appMarkData == f.appMarkData)
      && (p.side == Output && p.dynamic ==> d.timestampNs == f.timestampNs && d.appMarkData == f.appMarkData)
      && (p.side == Output && !p.dynamic ==> d == p.infos[f.handle].desc)
      && (f.handle !in p.infos ==> d == f.(timestampNs := d.timestampNs))
  {
  }

  /** A done event clears the flag of the entry it names and copies that; an unknown handle leaves everything as it is.
      Registering stores the buffer as given, unused. */
  lemma DoneIs(p: Port, h: Handle, b: Frame)
    ensures
      && var d := Done(p, h);
      && (h !in p.infos ==> d.port == p && d.copy == None)
      && (h in p.infos ==>
        && d.copy == Some(p.infos[h].desc) && d.port.infos.Keys == p.infos.Keys && !d.port.infos[h].used
        && d.port.infos[h].desc == p.infos[h].desc
        && forall g <- p.infos :: g != h ==> d.port.infos[g] == p.infos[g])
    ensures
      && var e := Enter(p, b);
      && b.handle in e.infos && e.infos[b.handle].desc == b && !e.infos[b.handle].used
      && forall g <- p.infos :: g != b.handle ==> g in e.infos && e.infos[g] == p.infos[g]
  {
  }

  // ---- the invariant ----

  /** Some thread is between setting the flag of h and the end of its ioctl, or of the reset after it. */
  ghost predicate Calling(calls: map<nat, Call>, h: Handle) {
    exists t :: t in calls && calls[t].frame.handle == h
  }

  /** The flag of a handle is set exactly while it is being submitted or held by the driver. */
  ghost predicate FlagsOk(s: System) {
    forall h :: Used(s.port, h) <==> Calling(s.calls, h) || h in s.held
  }

  /** No handle is in two hands. */
  ghost predicate Exclusive(s: System) {
    && (forall t, u :: t in s.calls && u in s.calls && t != u ==> s.calls[t].frame.handle != s.calls[u].frame.handle)
    && (forall t :: t in s.calls ==> s.calls[t].frame.handle !in s.held)
  }

  /** The stored descriptor carries what a callback has to report of the submission f. */
  predicate Carries(side: Side, desc: Frame, f: Frame) {
    side == Input ==> desc.appMarkData == f.appMarkData && desc.timestampNs == RoundDownToUs(f.timestampNs)
  }

  ghost predicate EntriesOk(s: System) {
    && (forall t :: t in s.calls ==>
      var f := s.calls[t].frame;
      f.handle in s.port.infos && Carries(s.port.side, s.port.infos[f.handle].desc, f))
    && (forall h :: h in s.held ==>
      && s.held[h] < |s.accepted| && s.accepted[s.held[h]].handle == h
      && h in s.port.infos && Carries(s.port.side, s.port.infos[h].desc, s.accepted[s.held[h]]))
  }

  ghost predicate Holding(held: map<Handle, nat>, id: nat) {
    exists h :: h in held && held[h] == id
  }

  ghost predicate Answered(answers: seq<Answer>, id: nat) {
    exists k :: 0 <= k < |answers| && answers[k].id == id
  }

  /** Every answer is for an accepted submission, carries its data, and is the only one for it. */
  ghost predicate AnswersOk(side: Side, accepted: seq<Frame>, answers: seq<Answer>) {
    && (forall k :: 0 <= k < |answers| ==>
      answers[k].id < |accepted| && Carries(side, answers[k].desc, accepted[answers[k].id]))
    && (forall j, k :: 0 <= j < k < |answers| ==> answers[j].id != answers[k].id)
  }

  /** Every accepted submission is either still held, by one handle, or was answered. */
  ghost predicate Settled(accepted: seq<Frame>, held: map<Handle, nat>, answers: seq<Answer>) {
    forall id :: 0 <= id < |accepted| ==> (Holding(held, id) <==> !Answered(answers, id))
  }

  ghost predicate Inv(s: System) {
    && FlagsOk(s) && Exclusive(s) && EntriesOk(s)
    && AnswersOk(s.port.side, s.accepted, s.answers) && Settled(s.accepted, s.held, s.answers)
    && (s.port.dynamic ==> |s.port.infos| <= s.port.bufNum)
  }

  // ---- steps ----

  lemma EnterCall(calls: map<nat, Call>, t: nat, f: Frame, h: Handle)
    requires t !in calls
    ensures Calling(calls[t := Submitting(f)], h) <==> Calling(calls, h) || h == f.handle
  {
    var more := calls[t := Submitting(f)];
    assert more[t].frame.handle == f.handle;
    if u :| u in calls && calls[u].frame.handle == h {
      assert more[u].frame.handle == h;
    }
  }

  lemma BeginFlags(s: System, t: nat, f: Frame)
    requires FlagsOk(s) && Exclusive(s) && t !in s.calls && Mark(s.port, f).status == Ok
    ensures FlagsOk(Apply(s, Begin(t, f))) && Exclusive(Apply(s, Begin(t, f)))
  {
    MarkIs(s.port, f);
    assert Mark(s.port, f).port.infos.Keys == s.port.infos.Keys + {f.handle};
    forall h ensures Calling(s.calls[t := Submitting(f)], h) <==> Calling(s.calls, h) || h == f.handle {
      EnterCall(s.calls, t, f, h);
    }
    hide Mark, Calling;
    assert !Calling(s.calls, f.handle) && f.handle !in s.held;
    assert forall u :: u in s.calls ==> s.calls[u].frame.handle != f.handle by { NotCalling(s.calls, f.handle); }
  }

  lemma NotCalling(calls: map<nat, Call>, h: Handle)
    requires !Calling(calls, h)
    ensures forall u :: u in calls ==> calls[u].frame.handle != h
  {
  }

  lemma BeginKeeps(s: System, t: nat, f: Frame)
    requires Inv(s) && t !in s.calls
    ensures Inv(Apply(s, Begin(t, f)))
  {
    hide Settled, AnswersOk, FlagsOk;
    if Mark(s.port, f).status == Ok {
      BeginFlags(s, t, f);
      var n := Apply(s, Begin(t, f));
      assert n.calls[t].frame == f;
      assert forall u :: u in s.calls ==> n.calls[u].frame.handle != f.handle;
      assert EntriesOk(n);
      assert n.port.infos.Keys == s.port.infos.Keys + {f.handle};
    }
  }

  lemma LeaveCall(calls: map<nat, Call>, t: nat, h: Handle)
    requires t in calls
    requires forall u, v :: u in calls && v in calls && u != v ==> calls[u].frame.handle != calls[v].frame.handle
    ensures Calling(calls - {t}, h) <==> Calling(calls, h) && h != calls[t].frame.handle
  {
    if u :| u in calls && calls[u].frame.handle == h {
      assert u != t ==> u in calls - {t};
    }
  }

  lemma IoctlOkKeeps(s: System, t: nat)
    requires Inv(s) && Enabled(s, IoctlOk(t))
    ensures Inv(Apply(s, IoctlOk(t)))
    ensures s.calls[t].frame.handle !in s.held
  {
    var f := s.calls[t].frame;
    var n := Apply(s, IoctlOk(t));
    forall h ensures Calling(n.calls, h) <==> Calling(s.calls, h) && h != f.handle {
      LeaveCall(s.calls, t, h);
    }
    assert FlagsOk(n) by { assert Calling(s.calls, f.handle); }
    assert Exclusive(n);
    assert EntriesOk(n);
    SettledAccept(s.accepted, s.held, s.answers, f);
  }

  lemma SettledAccept(accepted: seq<Frame>, held: map<Handle, nat>, answers: seq<Answer>, f: Frame)
    requires Settled(accepted, held, answers) && f.handle !in held
    requires forall h :: h in held ==> held[h] < |accepted|
    requires forall k :: 0 <= k < |answers| ==> answers[k].id < |accepted|
    ensures Settled(accepted + [f], held[f.handle := |accepted|], answers)
  {
    var more := held[f.handle := |accepted|];
    assert more[f.handle] == |accepted|;
    forall id | 0 <= id < |accepted| ensures Holding(more, id) <==> Holding(held, id) {
      if h :| h in held && held[h] == id {
        assert more[h] == id;
      }
    }
  }

  lemma IoctlFailKeeps(s: System, t: nat)
    requires Inv(s) && Enabled(s, IoctlFail(t))
    ensures Inv(Apply(s, IoctlFail(t)))
  {
    var n := Apply(s, IoctlFail(t));
    forall h ensures Calling(n.calls, h) <==> Calling(s.calls, h) {
      if u :| u in s.calls && s.calls[u].frame.handle == h {
        assert n.calls[u].frame.handle == h;
      }
      if u :| u in n.calls && n.calls[u].frame.handle == h {
        assert s.calls[u].frame.handle == h;
      }
    }
  }

  lemma ResetKeeps(s: System, t: nat)
    requires Inv(s) && Enabled(s, Reset(t))
    ensures Inv(Apply(s, Reset(t)))
  {
    var f := s.calls[t].frame;
    var n := Apply(s, Reset(t));
    forall h ensures Calling(n.calls, h) <==> Calling(s.calls, h) && h != f.handle {
      LeaveCall(s.calls, t, h);
    }
    assert n.port.infos.Keys == s.port.infos.Keys;
    assert |n.port.infos| == |n.port.infos.Keys| == |s.port.infos|;
  }

  lemma DoneFlags(s: System, h: Handle)
    requires FlagsOk(s) && Exclusive(s) && h in s.held && h in s.port.infos
    ensures FlagsOk(Apply(s, DoneEvent(h)))
  {
  }

  lemma HeldUnanswered(s: System, h: Handle)
    requires Inv(s) && h in s.held
    ensures forall k :: 0 <= k < |s.answers| ==> s.answers[k].id != s.held[h]
  {
    assert Holding(s.held, s.held[h]);
  }

  lemma DoneEventKeeps(s: System, h: Handle)
    requires Inv(s) && h in s.held
    ensures Inv(Apply(s, DoneEvent(h)))
    ensures Done(s.port, h).copy.Some?
  {
    hide Holding, Answered, Settled, Calling, FlagsOk;
    DoneFlags(s, h);
    var n := Apply(s, DoneEvent(h));
    assert n.port.infos.Keys == s.port.infos.Keys;
    assert |n.port.infos| == |n.port.infos.Keys| == |s.port.infos|;
    assert EntriesOk(n);
    HeldUnanswered(s, h);
    SettledDone(s.accepted, s.held, s.answers, h, s.port.infos[h].desc);
  }

  lemma SettledDone(accepted: seq<Frame>, held: map<Handle, nat>, answers: seq<Answer>, h: Handle, desc: Frame)
    requires Settled(accepted, held, answers) && h in held
    requires forall g :: g in held ==> held[g] < |accepted| && accepted[held[g]].handle == g
    ensures Settled(accepted, held - {h}, answers + [Answer(held[h], desc, false)])
  {
    var c := Answer(held[h], desc, false);
    assert (answers + [c])[|answers|].id == held[h];
    forall id | 0 <= id < |accepted|
      ensures Holding(held - {h}, id) <==> Holding(held, id) && id != held[h]
      ensures Answered(answers + [c], id) <==> Answered(answers, id) || id == held[h]
    {
      if g :| g in held && held[g] == id {
        assert g != h ==> g in held - {h};
        assert accepted[held[g]].handle == g;
      }
      if k :| 0 <= k < |answers| && answers[k].id == id {
        assert (answers + [c])[k].id == id;
      }
    }
  }

  lemma CallbackKeeps(s: System, k: nat)
    requires Inv(s) && Enabled(s, Callback(k))
    ensures Inv(Apply(s, Callback(k)))
  {
    var n := Apply(s, Callback(k));
    forall id ensures Answered(n.answers, id) <==> Answered(s.answers, id) {
      if j :| 0 <= j < |s.answers| && s.answers[j].id == id {
        assert n.answers[j].id == id;
      }
    }
  }

  /** The handle is being submitted, or the driver holds it. */
  ghost predicate InFlight(s: System, h: Handle) {
    Calling(s.calls, h) || h in s.held
  }

  /** Registering a buffer is harmless iff it is not in flight. */
  lemma RegisterKeepsIff(s: System, b: Frame)
    requires Inv(s) && Enabled(s, Register(b))
    ensures Inv(Apply(s, Register(b))) <==> !InFlight(s, b.handle)
  {
    var n := Apply(s, Register(b));
    assert !Used(n.port, b.handle);
    assert forall h :: h != b.handle ==> (Used(n.port, h) <==> Used(s.port, h));
    if !InFlight(s, b.handle) {
      assert forall t :: t in s.calls ==> s.calls[t].frame.handle != b.handle;
      assert FlagsOk(n) && EntriesOk(n);
    }
  }

  /** A step that registers no buffer in flight. */
  ghost predicate Careful(s: System, step: Step) {
    step.Register? ==> !InFlight(s, step.buffer.handle)
  }

  lemma StepKeeps(s: System, step: Step)
    requires Inv(s) && Enabled(s, step) && Careful(s, step)
    ensures Inv(Apply(s, step))
  {
    match step
    case Begin(t, f) => BeginKeeps(s, t, f);
    case IoctlOk(t) => IoctlOkKeeps(s, t);
    case IoctlFail(t) => IoctlFailKeeps(s, t);
    case Reset(t) => ResetKeeps(s, t);
    case DoneEvent(h) => DoneEventKeeps(s, h);
    case Callback(k) => CallbackKeeps(s, k);
    case Register(b) => RegisterKeepsIff(s, b);
  }

  // ---- runs ----

  /** No thread is inside a call, the driver holds nothing, and every flag is clear. */
  ghost predicate Idle(s: System) {
    && s.calls == map[] && s.held == map[] && s.accepted == [] && s.answers == []
    && (forall h :: !Used(s.port, h))
    && (s.port.dynamic ==> |s.port.infos| <= s.port.bufNum)
  }

  /** No step of the run registers a buffer that is in flight then. */
  ghost predicate CarefulRun(start: System, steps: seq<Step>)
    requires Run(start, steps).Some?
  {
    steps == [] ||
    (CarefulRun(start, steps[..|steps| - 1])
    && Careful(Run(start, steps[..|steps| - 1]).value, steps[|steps| - 1]))
  }

  /** The invariant holds in every state that is reached without registering a buffer in flight; the mode and the
      count never change, and no entry goes. */
  lemma {:induction false} Safety(start: System, steps: seq<Step>)
    requires Idle(start) && Run(start, steps).Some? && CarefulRun(start, steps)
    ensures var s := Run(start, steps).value;
      && Inv(s)
      && s.port == start.port.(infos := s.port.infos)
      && start.port.infos.Keys <= s.port.infos.Keys
  {
    hide Inv, Apply, Idle, Careful;
    if steps == [] {
      IdleIsOk(start);
    } else {
      var init, last := steps[..|steps| - 1], steps[|steps| - 1];
      Safety(start, init);
      StepKeeps(Run(start, init).value, last);
      StepPort(Run(start, init).value, last);
    }
  }

  lemma IdleIsOk(s: System)
    requires Idle(s)
    ensures Inv(s) && AnswersAsEntries(s)
  {
  }

  /** No step changes the mode or the count, none removes an entry, and in static mode only a registration adds one. */
  lemma StepPort(s: System, step: Step)
    requires Inv(s) && Enabled(s, step)
    ensures Apply(s, step).port == s.port.(infos := Apply(s, step).port.infos)
    ensures s.port.infos.Keys <= Apply(s, step).port.infos.Keys
    ensures !s.port.dynamic && !step.Register? ==> Apply(s, step).port.infos.Keys == s.port.infos.Keys
  {
    if step.Begin? {
      MarkIs(s.port, step.frame);
    }
  }

  /** A step that shows h given finds it not held, one that shows it returned finds it held. */
  lemma ShownIs(s: System, step: Step, h: Handle)
    requires Inv(s) && Enabled(s, step)
    ensures var held, after := h in s.held, h in Apply(s, step).held;
      Shown(s, step, h) == if held == after then [] else if after then [Given] else [Returned]
  {
    if step.IoctlOk? {
      IoctlOkKeeps(s, step.thread);
    }
  }

  /** Given and returned in strict alternation, starting with empty hands and ending as `held` says. */
  predicate Alternating(log: seq<DriverEvent>, held: bool) {
    && (forall i :: 0 <= i < |log| ==> log[i] == if i % 2 == 0 then Given else Returned)
    && (held <==> |log| % 2 == 1)
  }

  lemma AlternatingOn(log: seq<DriverEvent>, held: bool, after: bool)
    requires Alternating(log, held)
    ensures Alternating(log + if held == after then [] else if after then [Given] else [Returned], after)
  {
  }

  /** For every interleaving, the driver gets each handle and returns it in strict alternation; so it is never
      given a handle twice without a done event between. */
  lemma {:induction false} NoDoubleSubmission(start: System, steps: seq<Step>, h: Handle)
    requires Idle(start) && Run(start, steps).Some? && CarefulRun(start, steps)
    ensures Alternating(Traffic(start, steps, h), h in Run(start, steps).value.held)
  {
    if steps != [] {
      var init, last := steps[..|steps| - 1], steps[|steps| - 1];
      NoDoubleSubmission(start, init, h);
      var k := Run(start, init).value;
      assert Inv(k) by { Safety(start, init); }
      ShownIs(k, last, h);
      AlternatingOn(Traffic(start, init, h), h in k.held, h in Apply(k, last).held);
    }
  }

  /** Every input submission the driver accepted is answered by at most one callback, by one as soon as the
      driver no longer holds it, and the callback reports the mark data of that submission and its time stamp
      rounded down to a whole microsecond. */
  lemma OneAnswerEach(start: System, steps: seq<Step>)
    requires Idle(start) && Run(start, steps).Some? && CarefulRun(start, steps) && start.port.side == Input
    ensures var s := Run(start, steps).value;
      && (forall j, k :: 0 <= j < k < |s.answers| ==> s.answers[j].id != s.answers[k].id)
      && (forall id :: 0 <= id < |s.accepted| ==> (Holding(s.held, id) <==> !Answered(s.answers, id)))
      && (forall k :: 0 <= k < |s.answers| ==>
        && s.answers[k].id < |s.accepted|
        && s.answers[k].desc.appMarkData == s.accepted[s.answers[k].id].appMarkData
        && s.answers[k].desc.timestampNs == RoundDownToUs(s.accepted[s.answers[k].id].timestampNs))
  {
    Safety(start, steps);
  }

  /** A done event's answer stays what it was, also when the handle is submitted again before the callback, and
      a callback is made once. */
  lemma AnswersStay(s: System, step: Step)
    requires Enabled(s, step)
    ensures var n := Apply(s, step);
      && |s.answers| <= |n.answers| && s.accepted <= n.accepted
      && (forall k :: 0 <= k < |s.answers| ==>
        && n.answers[k].id == s.answers[k].id && n.answers[k].desc == s.answers[k].desc
        && (n.answers[k].made <==> s.answers[k].made || step == Callback(k))
        && (step == Callback(k) ==> !s.answers[k].made))
  {
  }

  // ---- registering and negotiating ----

  lemma {:induction false} SetBufferIs(p: Port, buffers: seq<Frame>, h: Handle)
    ensures var q := SetBuffer(p, buffers);
      && (h in q.infos <==> h in p.infos || exists b <- buffers :: b.handle == h)
      && (Used(q, h) <==> Used(p, h) && forall b <- buffers :: b.handle != h)
  {
    if buffers != [] {
      var init, last := buffers[..|buffers| - 1], buffers[|buffers| - 1];
      SetBufferIs(p, init, h);
      assert buffers == init + [last];
      assert forall b :: b in buffers <==> b in init || b == last;
    }
  }

  /** SetBuffer clears the flag of every buffer it registers. It keeps the flags right iff none of them is in
      flight. */
  lemma SetBufferSafe(s: System, buffers: seq<Frame>)
    requires FlagsOk(s)
    ensures FlagsOk(s.(port := SetBuffer(s.port, buffers))) <==> forall b <- buffers :: !InFlight(s, b.handle)
  {
    var n := s.(port := SetBuffer(s.port, buffers));
    forall h ensures Used(n.port, h) <==> Used(s.port, h) && forall b <- buffers :: b.handle != h {
      SetBufferIs(s.port, buffers, h);
    }
    if b :| b in buffers && InFlight(s, b.handle) {
      assert Used(s.port, b.handle) && !Used(n.port, b.handle);
    }
  }

  /** Thread t is about to give the driver a handle that it holds already. */
  predicate GivingTwice(s: System, t: nat) {
    t in s.calls && s.calls[t].Submitting? && s.calls[t].frame.handle in s.held
  }

  lemma NoneGivenTwice(s: System, t: nat)
    requires Inv(s)
    ensures !GivingTwice(s, t)
  {
  }

  lemma FreshThread(calls: map<nat, Call>) returns (t: nat)
    ensures t !in calls && t > 0
  {
    t := 1;
    ghost var seen: set<nat> := {};
    while t in calls
      invariant t > 0 && seen <= calls.Keys && forall u <- seen :: u < t
      decreases calls.Keys - seen
    {
      seen := seen + {t};
      t := t + 1;
    }
  }

  lemma RunOne(s: System, steps: seq<Step>, step: Step)
    requires Run(s, steps).Some? && Enabled(Run(s, steps).value, step)
    ensures Run(s, steps + [step]) == Some(Apply(Run(s, steps).value, step))
  {
    assert (steps + [step])[..|steps|] == steps;
  }

  /** Begin of a registered buffer by thread t: the flag is clear, so it is accepted. */
  lemma BeginRegistered(s: System, t: nat, f: Frame)
    requires t !in s.calls && f.handle in s.port.infos && !Used(s.port, f.handle)
    ensures Enabled(s, Begin(t, f))
    ensures var n := Apply(s, Begin(t, f)); n.calls == s.calls[t := Submitting(f)] && n.held == s.held
  {
  }

  /** Every registration of a buffer in flight lets the driver be given the handle while it holds it: the condition
      of `Safety` is the exact one. */
  lemma RegisteredInFlight(s: System, f: Frame) returns (steps: seq<Step>, t: nat)
    requires Inv(s) && Enabled(s, Register(f)) && InFlight(s, f.handle)
    ensures forall step <- steps :: !step.Register?
    ensures Run(Apply(s, Register(f)), steps).Some? && GivingTwice(Run(Apply(s, Register(f)), steps).value, t)
  {
    var n := Apply(s, Register(f));
    t := FreshThread(n.calls);
    if f.handle in s.held {
      BeginRegistered(n, t, f);
      RunOne(n, [], Begin(t, f));
      steps := [] + [Begin(t, f)];
    } else {
      var u :| u in s.calls && s.calls[u].frame.handle == f.handle;
      if s.calls[u].Submitting? {
        RunOne(n, [], IoctlOk(u));
        var m := Apply(n, IoctlOk(u));
        BeginRegistered(m, t, f);
        RunOne(n, [] + [IoctlOk(u)], Begin(t, f));
        steps := [] + [IoctlOk(u)] + [Begin(t, f)];
      } else {
        steps := LateReset(n, u, t, f);
      }
    }
  }

  /** From the invariant, runs without registrations keep it. */
  lemma {:induction false} InvStays(s: System, steps: seq<Step>)
    requires Inv(s) && Run(s, steps).Some? && forall step <- steps :: !step.Register?
    ensures Inv(Run(s, steps).value)
  {
    hide Inv, Apply;
    if steps != [] {
      var init, last := steps[..|steps| - 1], steps[|steps| - 1];
      InvStays(s, init);
      StepKeeps(Run(s, init).value, last);
    }
  }

  ghost predicate GivesTwiceLater(s: System) {
    exists steps: seq<Step>, t: nat ::
      (forall step <- steps :: !step.Register?) && Run(s, steps).Some? && GivingTwice(Run(s, steps).value, t)
  }

  /** After a registration there is a way to go on, without further ones, to a thread that gives the driver a handle it
      holds, if and only if the buffer was in flight. */
  lemma RegisteredInFlightIff(s: System, f: Frame)
    requires Inv(s) && Enabled(s, Register(f))
    ensures GivesTwiceLater(Apply(s, Register(f))) <==> InFlight(s, f.handle)
  {
    var n := Apply(s, Register(f));
    if InFlight(s, f.handle) {
      var steps, t := RegisteredInFlight(s, f);
      assert Run(n, steps).Some? && GivingTwice(Run(n, steps).value, t);
    } else {
      RegisterKeepsIff(s, f);
      hide Inv, Apply, Enabled, InFlight;
      if GivesTwiceLater(n) {
        var steps: seq<Step>, t: nat :|
          (forall step <- steps :: !step.Register?) && Run(n, steps).Some? && GivingTwice(Run(n, steps).value, t);
        InvStays(n, steps);
        NoneGivenTwice(Run(n, steps).value, t);
      }
    }
  }

  /** The reset after a refused ioctl clears the flag of a second submission under way; a third is accepted. */
  lemma LateReset(n: System, u: nat, t: nat, f: Frame) returns (steps: seq<Step>)
    requires u in n.calls && n.calls[u].Refused? && n.calls[u].frame.handle == f.handle
    requires t !in n.calls && f.handle in n.port.infos && !Used(n.port, f.handle)
    ensures forall step <- steps :: !step.Register?
    ensures Run(n, steps).Some? && GivingTwice(Run(n, steps).value, t)
  {
    BeginRegistered(n, t, f);
    RunOne(n, [], Begin(t, f));
    var n1 := Apply(n, Begin(t, f));
    RunOne(n, [] + [Begin(t, f)], Reset(u));
    var n2 := Apply(n1, Reset(u));
    RunOne(n, [] + [Begin(t, f)] + [Reset(u)], IoctlOk(t));
    var n3 := Apply(n2, IoctlOk(t));
    assert !Used(n3.port, f.handle) && f.handle in n3.held;
    BeginRegistered(n3, t, f);
    RunOne(n, [] + [Begin(t, f)] + [Reset(u)] + [IoctlOk(t)], Begin(t, f));
    steps := [] + [Begin(t, f)] + [Reset(u)] + [IoctlOk(t)] + [Begin(t, f)];
  }

  /** What a decoder does with its output buffers in static mode when the driver reports a new output format while
      it still holds them: they are registered, submitted, registered again by HandleOutputReconfig and submitted
      again by FinishOutputReconfig. */
  function OutputReconfig(f: Frame): seq<Step> {
    [Register(f), Begin(1, f), IoctlOk(1), Register(f), Begin(1, f), IoctlOk(1)]
  }

  /** Then the driver is given the handle twice with no done event between, which NoDoubleSubmission excludes for
      careful runs. */
  lemma DoubleSubmissionAfterSetBuffer(start: System, f: Frame)
    requires Idle(start) && start.port.side == Output && !start.port.dynamic
    ensures var steps := OutputReconfig(f);
      && Run(start, steps).Some? && Run(start, steps).value.accepted == [f, f]
      && Traffic(start, steps, f.handle) == [Given, Given]
  {
    hide Run, Traffic, Mark, OutputReconfig;
    RunNothing(start, f.handle);
    var s1 := start.(port := Enter(start.port, f));
    ShownOne(start, [], Register(f), f.handle);
    assert [] + [Register(f)] == [Register(f)];
    MarkIs(s1.port, f);
    var s2 := Submit(start, [Register(f)], s1, 1, f);
    var once := [Register(f), Begin(1, f), IoctlOk(1)];
    assert [Register(f)] + [Begin(1, f), IoctlOk(1)] == once;
    assert !s2.port.dynamic && s2.calls == start.calls == map[];
    ShownOne(start, once, Register(f), f.handle);
    var s3 := s2.(port := Enter(s2.port, f));
    MarkIs(s3.port, f);
    var s4 := Submit(start, once + [Register(f)], s3, 1, f);
    assert OutputReconfig(f) == once + [Register(f)] + [Begin(1, f), IoctlOk(1)] by { ReconfigIs(f); }
  }

  lemma ReconfigIs(f: Frame)
    ensures OutputReconfig(f) == [Register(f), Begin(1, f), IoctlOk(1)] + [Register(f)] + [Begin(1, f), IoctlOk(1)]
  {
  }

  lemma RunNothing(start: System, h: Handle)
    ensures Run(start, []) == Some(start) && Traffic(start, [], h) == []
  {
  }

  lemma ShownOne(start: System, steps: seq<Step>, step: Step, h: Handle)
    requires Run(start, steps).Some? && Enabled(Run(start, steps).value, step)
    ensures Run(start, steps + [step]) == Some(Apply(Run(start, steps).value, step))
    ensures Traffic(start, steps + [step], h) == Traffic(start, steps, h) + Shown(Run(start, steps).value, step, h)
  {
    assert (steps + [step])[..|steps|] == steps;
  }

  /** A run that goes on with an accepted submission, when no other thread comes between. */
  lemma Submit(start: System, steps: seq<Step>, s: System, t: nat, f: Frame) returns (n: System)
    requires Run(start, steps) == Some(s) && t !in s.calls && Mark(s.port, f).status == Ok
    ensures n == s.(port := Mark(s.port, f).port, held := s.held[f.handle := |s.accepted|],
                    accepted := s.accepted + [f])
    ensures Run(start, steps + [Begin(t, f), IoctlOk(t)]) == Some(n)
    ensures Traffic(start, steps + [Begin(t, f), IoctlOk(t)], f.handle) == Traffic(start, steps, f.handle) + [Given]
  {
    hide Run, Traffic, Mark;
    ShownOne(start, steps, Begin(t, f), f.handle);
    var m := Apply(s, Begin(t, f));
    ShownOne(start, steps + [Begin(t, f)], IoctlOk(t), f.handle);
    n := Apply(m, IoctlOk(t));
    assert n.calls == s.calls;
    assert steps + [Begin(t, f)] + [IoctlOk(t)] == steps + [Begin(t, f), IoctlOk(t)];
  }

  // ---- what a callback reports of the buffer ----

  /** Two descriptors that differ in time stamp and mark data at most. */
  predicate SameBuffer(d: Frame, f: Frame) {
    d == f.(timestampNs := d.timestampNs, appMarkData := d.appMarkData)
  }

  /** An accepted submission leaves an entry it finds as it is but for time stamp and mark data; a new entry is the
      submission's own. */
  lemma MarkEntry(p: Port, f: Frame)
    requires Mark(p, f).status == Ok
    ensures SameBuffer(Mark(p, f).port.infos[f.handle].desc, if f.handle in p.infos then p.infos[f.handle].desc else f)
  {
  }

  /** Entries describe the buffers they did before. */
  predicate SameEntries(p: Port, q: Port) {
    forall h :: h in p.infos ==> h in q.infos && SameBuffer(q.infos[h].desc, p.infos[h].desc)
  }

  ghost predicate AnswersAsEntries(s: System) {
    forall k :: 0 <= k < |s.answers| && s.answers[k].id < |s.accepted| ==>
      var h := s.accepted[s.answers[k].id].handle;
      h in s.port.infos && SameBuffer(s.answers[k].desc, s.port.infos[h].desc)
  }

  lemma EntryStep(s: System, step: Step)
    requires Inv(s) && Enabled(s, step) && !step.Register? && AnswersAsEntries(s)
    ensures SameEntries(s.port, Apply(s, step).port) && AnswersAsEntries(Apply(s, step))
  {
    hide FlagsOk, Settled, Exclusive;
    var n := Apply(s, step);
    if step.Begin? && Mark(s.port, step.frame).status == Ok {
      MarkEntry(s.port, step.frame);
    }
    assert SameEntries(s.port, n.port);
  }

  lemma {:induction false} EntriesStay(start: System, steps: seq<Step>)
    requires Idle(start) && Run(start, steps).Some? && forall step <- steps :: !step.Register?
    ensures CarefulRun(start, steps)
    ensures var s := Run(start, steps).value; Inv(s) && SameEntries(start.port, s.port) && AnswersAsEntries(s)
  {
    hide Inv, Apply, Idle;
    if steps == [] {
      IdleIsOk(start);
    } else {
      var init, last := steps[..|steps| - 1], steps[|steps| - 1];
      EntriesStay(start, init);
      StepKeeps(Run(start, init).value, last);
      EntryStep(Run(start, init).value, last);
    }
  }

  /** Between registrations, the callback for an input submission gets the submission's own descriptor, with its time
      rounded down, iff that describes the same buffer as the entry of the handle; the entry is the one registered
      before, or that of the first submission. */
  lemma CallbackDescriptor(start: System, steps: seq<Step>, k: nat)
    requires Idle(start) && Run(start, steps).Some? && start.port.side == Input
    requires forall step <- steps :: !step.Register?
    requires k < |Run(start, steps).value.answers|
    ensures var s := Run(start, steps).value;
      && s.answers[k].id < |s.accepted| && SameEntries(start.port, s.port)
      && var f := s.accepted[s.answers[k].id];
      && f.handle in s.port.infos
      && (s.answers[k].desc == f.(timestampNs := RoundDownToUs(f.timestampNs)) <==>
          SameBuffer(f, s.port.infos[f.handle].desc))
  {
    EntriesStay(start, steps);
    Safety(start, steps);
    assert AnswersOk(Input, Run(start, steps).value.accepted, Run(start, steps).value.answers);
  }

  /** A handle submitted again in dynamic mode with another buffer: the driver fills or reads the second buffer, and
      the callback reports the first. */
  lemma StaleDescriptor(start: System, f: Frame, g: Frame)
    requires Idle(start) && start.port.dynamic && start.port.side == Input
    requires start.port.infos == map[] && start.port.bufNum > 0 && f.handle == g.handle
    ensures var steps := [Begin(1, f), IoctlOk(1), DoneEvent(f.handle), Begin(1, g), IoctlOk(1), DoneEvent(f.handle)];
      && Run(start, steps).Some?
      && var s := Run(start, steps).value;
      && s.accepted == [f, g] && |s.answers| == 2 && s.answers[1].id == 1
      && s.answers[1].desc == f.(timestampNs := RoundDownToUs(g.timestampNs), appMarkData := g.appMarkData)
  {
    var steps := [Begin(1, f), IoctlOk(1), DoneEvent(f.handle), Begin(1, g), IoctlOk(1), DoneEvent(f.handle)];
    IdleIs(start);
    RunNothing(start, f.handle);
    FirstMark(start.port, f);
    var stored := f.(timestampNs := RoundDownToUs(f.timestampNs));
    var later := f.(timestampNs := RoundDownToUs(g.timestampNs), appMarkData := g.appMarkData);
    hide Run, Mark, Apply, Idle, RoundDownToUs;
    var s1 := Exchange(start, [], start, f, stored);
    NextMark(s1.port, g);
    assert s1.port.infos[g.handle := Info(later, true)] == map[g.handle := Info(later, true)];
    var first := [] + [Begin(1, f), IoctlOk(1), DoneEvent(f.handle)];
    var s2 := Exchange(start, first, s1, g, later);
    SixSteps(f, g);
  }

  lemma SixSteps(f: Frame, g: Frame)
    ensures
      [Begin(1, f), IoctlOk(1), DoneEvent(f.handle), Begin(1, g), IoctlOk(1), DoneEvent(g.handle)] ==
      [] + [Begin(1, f), IoctlOk(1), DoneEvent(f.handle)] + [Begin(1, g), IoctlOk(1), DoneEvent(g.handle)]
  {
  }

  lemma IdleIs(s: System)
    requires Idle(s)
    ensures s.calls == map[] && s.held == map[] && s.accepted == [] && s.answers == []
  {
  }

  /** A run that goes on with a submission and its done event, on a port that then has this entry only. */
  lemma Exchange(start: System, steps: seq<Step>, s: System, f: Frame, desc: Frame) returns (n: System)
    requires Run(start, steps) == Some(s) && s.calls == map[] && s.held == map[]
    requires Mark(s.port, f) == Marked(s.port.(infos := map[f.handle := Info(desc, true)]), Ok)
    ensures n == s.(port := s.port.(infos := map[f.handle := Info(desc, false)]), accepted := s.accepted + [f],
                    answers := s.answers + [Answer(|s.accepted|, desc, false)])
    ensures Run(start, steps + [Begin(1, f), IoctlOk(1), DoneEvent(f.handle)]) == Some(n)
  {
    hide Run, Mark;
    var m := Submit(start, steps, s, 1, f);
    RunOne(start, steps + [Begin(1, f), IoctlOk(1)], DoneEvent(f.handle));
    n := Apply(m, DoneEvent(f.handle));
    assert n.port.infos == map[f.handle := Info(desc, false)] && n.held == map[];
    assert steps + [Begin(1, f), IoctlOk(1)] + [DoneEvent(f.handle)]
      == steps + [Begin(1, f), IoctlOk(1), DoneEvent(f.handle)];
  }

  lemma FirstMark(p: Port, f: Frame)
    requires p.dynamic && p.side == Input && p.infos == map[] && p.bufNum > 0
    ensures var d := f.(timestampNs := RoundDownToUs(f.timestampNs));
      Mark(p, f) == Marked(p.(infos := map[f.handle := Info(d, true)]), Ok)
  {
  }

  lemma NextMark(p: Port, g: Frame)
    requires p.dynamic && p.side == Input && g.handle in p.infos && !p.infos[g.handle].used
    ensures var d := p.infos[g.handle].desc.(timestampNs := RoundDownToUs(g.timestampNs), appMarkData := g.appMarkData);
      Mark(p, g) == Marked(p.(infos := p.infos[g.handle := Info(d, true)]), Ok)
  {
  }

  /** After a successful negotiation client and driver agree on the count, which is at least the requested one. */
  lemma NegotiateIs(bufNum: nat, requested: nat, first: Option<nat>, setOk: bool, second: Option<nat>)
    ensures var n := Negotiate(bufNum, requested, first, setOk, second);
      n.status == Ok <==>
        first.Some? && n.bufNum >= requested && (first.value < requested ==> setOk)
        && (if first.value < requested then second else first) == Some(n.bufNum)
    ensures var n := Negotiate(bufNum, requested, first, setOk, second);
      && (n.status == Ok || n.status == Fail) && (first.None? ==> n.bufNum == bufNum)
      && (first.Some? ==> n.bufNum == if first.value > requested then first.value else requested)
  {
  }
}
