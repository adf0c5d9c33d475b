/** The calls of the library, counted: those that registered a part of a buffer against those that took it back. */
module FadasCounts {
  import opened QCDefs
  import opened FadasSpec
  import opened FadasProofs

  // ---------------------------------------------------------------- counting

  function Trues(calls: seq<bool>): nat {
    if calls == [] then 0 else Trues(calls[..|calls| - 1]) + if calls[|calls| - 1] then 1 else 0
  }

  function Change(e: Event, p: nat): int {
    match e
    case Registration(q, calls, _, _) => if q == p then Trues(calls) else 0
    case Deregistration(q, calls) => if q == p then 0 - Trues(calls) else 0
    case _ => 0
  }

  /** Accepted calls that registered a part of p, less accepted calls that took it back. */
  function Net(log: seq<Event>, p: nat): int {
    if log == [] then 0
    else Net(log[..|log| - 1], p) + Change(log[|log| - 1], p)
  }

  /** What an event leaves over: registering calls beyond those that the entry will be taken back with, and refused
      calls to take it back. */
  function Surplus(e: Event, p: nat): int {
    match e
    case Registration(q, calls, _, owed) => if q == p then Trues(calls) - owed else 0
    case Deregistration(q, calls) => if q == p then |calls| - Trues(calls) else 0
    case _ => 0
  }

  function Surpluses(log: seq<Event>, p: nat): int {
    if log == [] then 0 else Surpluses(log[..|log| - 1], p) + Surplus(log[|log| - 1], p)
  }

  /** The calls that are still to come for an entry. */
  function OwedFor(s: Slot, p: nat): nat {
    if p in s.memMap then Owed(s.dsp, s.memMap[p].batch) else 0
  }

  lemma CountAppend(log: seq<Event>, e: Event, p: nat)
    ensures Surpluses(log + [e], p) == Surpluses(log, p) + Surplus(e, p)
    ensures Net(log + [e], p) == Net(log, p) + Change(e, p)
  {
    assert (log + [e])[..|log|] == log;
  }

  lemma {:induction false} TruesAre(calls: seq<bool>)
    ensures Trues(calls) <= |calls|
    ensures Trues(calls) > 0 <==> true in calls
    ensures Trues(calls) == |calls| <==> false !in calls
  {
    if calls != [] {
      var front := calls[..|calls| - 1];
      TruesAre(front);
      assert forall b :: b in calls <==> b in front || b == calls[|calls| - 1];
    }
  }

  lemma {:induction false} TruesTogether(a: seq<bool>, b: seq<bool>)
    ensures Trues(a + b) == Trues(a) + Trues(b)
  {
    if b == [] {
      assert a + b == a;
    } else {
      assert (a + b)[..|a + b| - 1] == a + b[..|b| - 1];
      TruesTogether(a, b[..|b| - 1]);
    }
  }

  lemma TruesOfAnswers(n: nat, accepted: nat)
    ensures Trues(Answers(n, accepted)) == if n <= accepted then n else accepted
  {
    var k := if n <= accepted then n else accepted;
    var yes: seq<bool> := seq(k, _ => true);
    TruesAre(yes);
    assert Trues([false]) == 0 by { assert [false][..0] == []; }
    TruesTogether(yes, [false]);
  }

  // ---------------------------------------------------------------- what a registration leaves over

  /** A registration that is recorded leaves one call over for an NV12 input whose first plane was accepted; an input
      that is a batch is registered by one call and taken back by one for each element, except on a signal processor;
      nothing else is left over. One that is not recorded leaves over whatever was accepted. */
  lemma SurplusIs(dsp: bool, t: BufType, d: Desc, a: Answer)
    requires a.fd >= 0 && !d.OtherDesc? && (d.ImageDesc? ==> d.batch > 0)
    ensures
      && var e := Registered(dsp, t, d, a);
      && (e.cached ==>
           Surplus(e, d.ptr) == (if PlaneByPlane(t, d) && a.first >= 1 then 1 else 0)
             - (if !dsp && d.ImageDesc? && t == In then d.batch - 1 else 0))
      && (!e.cached ==> Surplus(e, d.ptr) >= 0 && (Surplus(e, d.ptr) == 0 <==> true !in e.calls))
  {
    TruesOfCalls(dsp, t, d, a);
    TruesAre(Calls(dsp, t, d, a));
    hide Calls, Trues;
  }

  lemma TruesOfCalls(dsp: bool, t: BufType, d: Desc, a: Answer)
    requires a.fd >= 0
    ensures
      && var n := FirstCalls(dsp, t, d);
      && Trues(Calls(dsp, t, d, a)) == (if dsp then 1 else 0) + (if n <= a.first then n else a.first)
        + (if PlaneByPlane(t, d) && a.second >= 1 then 1 else 0)
  {
    var mapped := if dsp then [true] else [];
    var first := Answers(FirstCalls(dsp, t, d), a.first);
    var second := if PlaneByPlane(t, d) then Answers(1, a.second) else [];
    assert Calls(dsp, t, d, a) == mapped + first + second;
    TruesOfOne();
    TruesOfAnswers(FirstCalls(dsp, t, d), a.first);
    TruesOfAnswers(1, a.second);
    hide Trues, Answers, Calls, FirstCalls;
    TruesTogether(mapped + first, second);
    TruesTogether(mapped, first);
  }

  lemma TruesOfOne()
    ensures Trues([true]) == 1 && Trues([]) == 0
  {
    assert [true][..0] == [];
  }

  // ---------------------------------------------------------------- conservation

  /** Null is never taken back, so it is counted on its own. */
  ghost predicate Counted(s: Slot) {
    forall p :: p != NULL ==> Net(s.log, p) == OwedFor(s, p) + Surpluses(s.log, p)
  }

  lemma RegCounts(s: Slot, t: Option<BufType>, d: Desc, a: Answer)
    requires Counted(s) && (d.ImageDesc? ==> d.batch > 0)
    ensures Counted(RegSlot(s, t, d, a).0)
  {
    hide Calls, Accepted, Net, Surpluses, Trues;
    if t.Some? && !d.OtherDesc? && d.ptr !in s.memMap && a.fd >= 0 {
      forall p | p != NULL
        ensures
          && var r := RegSlot(s, t, d, a).0;
          && Net(r.log, p) == OwedFor(r, p) + Surpluses(r.log, p)
      {
        CountAppend(s.log, Registered(s.dsp, t.value, d, a), p);
      }
    }
  }

  lemma DeregCounts(s: Slot, ptr: nat, accepts: Returns)
    requires Counted(s)
    ensures Counted(DeregSlot(s, ptr, accepts))
  {
    hide Net, Surpluses, Trues;
    if ptr != NULL && ptr in s.memMap {
      forall p | p != NULL
        ensures
          && var r := DeregSlot(s, ptr, accepts);
          && Net(r.log, p) == OwedFor(r, p) + Surpluses(r.log, p)
      {
        CountAppend(s.log, Deregistration(ptr, DeregCalls(s, ptr, accepts)), p);
      }
    }
  }

  lemma {:induction false} DeregAllCounts(s: Slot, ptrs: seq<nat>, accepts: Returns)
    requires Counted(s)
    ensures Counted(DeregAll(s, ptrs, accepts))
  {
    hide Counted, DeregSlot;
    if ptrs != [] {
      DeregAllCounts(s, ptrs[..|ptrs| - 1], accepts);
      DeregCounts(DeregAll(s, ptrs[..|ptrs| - 1], accepts), ptrs[|ptrs| - 1], accepts);
    }
  }

  lemma DeinitCounts(s: Slot, ptrs: seq<nat>, accepts: Returns, stopped: bool)
    requires Counted(s) && SlotOk(s) && Enumerates(ptrs, s.memMap)
    ensures Counted(DeinitSlot(s, ptrs, accepts, stopped))
  {
    if LastUse(s) {
      DeregAllCounts(s, ptrs, accepts);
      DeregAllKeeps(s, ptrs, accepts);
      var d := DeregAll(s, ptrs, accepts);
      forall p ensures Net(d.log + [Stopped(stopped)], p) == Net(d.log, p)
        ensures Surpluses(d.log + [Stopped(stopped)], p) == Surpluses(d.log, p)
      {
        CountAppend(d.log, Stopped(stopped), p);
      }
    }
  }

  lemma InitCounts(s: Slot, ok: bool, version: bool)
    requires Counted(s)
    ensures Counted(InitSlot(s, ok, version).0)
  {
    var e := Started(ok, !s.dsp || version);
    forall p ensures Net(s.log + [e], p) == Net(s.log, p) && Surpluses(s.log + [e], p) == Surpluses(s.log, p) {
      CountAppend(s.log, e, p);
    }
  }

  ghost predicate AllCounted(v: Service) {
    forall k :: 0 <= k < |v.slots| ==> Counted(v.slots[k])
  }

  lemma StepCounts(v: Service, step: Step)
    requires Inv(v) && AllCounted(v) && Legal(v, step)
    ensures AllCounted(Apply(v, step))
  {
    hide Counted, SlotOk, InitSlot, DeinitSlot, RegSlot, DeregSlot, ClientsAt, Enumerates;
    match step
    case Init(c, index, ok, version) => InitCounts(v.slots[index], ok, version);
    case Deinit(c, ptrs, accepts, stopped) => DeinitCounts(v.slots[v.clients[c]], ptrs, accepts, stopped);
    case Reg(c, t, d, a) => RegCounts(v.slots[v.clients[c]], t, d, a);
    case Dereg(c, ptr, accepts) => DeregCounts(v.slots[v.clients[c]], ptr, accepts);
  }

  lemma {:induction false} RunCounts(v: Service, steps: seq<Step>)
    requires Inv(v) && AllCounted(v) && Run(v, steps).Some?
    ensures AllCounted(Run(v, steps).value) && Inv(Run(v, steps).value)
    decreases |steps|
  {
    hide Inv, AllCounted, Legal, Apply;
    if steps != [] {
      StepKeeps(v, steps[0]);
      StepCounts(v, steps[0]);
      RunCounts(Apply(v, steps[0]), steps[1..]);
    }
  }

  /** At every moment of every run: the calls that registered p and have not been undone are those that its entry will
      be taken back with, and what the events so far have left over. */
  lemma Conservation(steps: seq<Step>, k: nat, p: nat)
    requires Run(NewService(), steps).Some? && k < SLOTS && p != NULL
    ensures |Run(NewService(), steps).value.slots| == SLOTS
    ensures
      && var s := Run(NewService(), steps).value.slots[k];
      && Net(s.log, p) == OwedFor(s, p) + Surpluses(s.log, p)
  {
    NewServiceOk();
    Safety(NewService(), steps);
    RunCounts(NewService(), steps);
    assert Counted(Run(NewService(), steps).value.slots[k]);
  }

  // ---------------------------------------------------------------- when all is taken back

  /** Inputs are single images, as the source notes they must be. */
  predicate SingleInputs(steps: seq<Step>) {
    forall i :: 0 <= i < |steps| ==>
      steps[i].Reg? && steps[i].t == Some(In) && steps[i].d.ImageDesc? ==> steps[i].d.batch == 1
  }

  ghost predicate Modest(log: seq<Event>) {
    forall i, p :: 0 <= i < |log| ==> Surplus(log[i], p) >= 0
  }

  lemma ModestAppend(log: seq<Event>, e: Event)
    requires Modest(log) && forall p :: Surplus(e, p) >= 0
    ensures Modest(log + [e])
  {
  }

  lemma RegModest(s: Slot, t: Option<BufType>, d: Desc, a: Answer)
    requires Modest(s.log) && (d.ImageDesc? ==> d.batch > 0)
    requires t == Some(In) && d.ImageDesc? ==> d.batch == 1
    ensures Modest(RegSlot(s, t, d, a).0.log)
  {
    if t.Some? && !d.OtherDesc? && a.fd >= 0 {
      SurplusIs(s.dsp, t.value, d, a);
      hide Calls, Trues, Modest;
      ModestAppend(s.log, Registered(s.dsp, t.value, d, a));
    }
  }

  lemma DeregModest(s: Slot, ptr: nat, accepts: Returns)
    requires Modest(s.log)
    ensures Modest(DeregSlot(s, ptr, accepts).log)
  {
    if ptr in s.memMap {
      TruesAre(DeregCalls(s, ptr, accepts));
      hide Trues, Modest;
      ModestAppend(s.log, Deregistration(ptr, DeregCalls(s, ptr, accepts)));
    }
  }

  lemma {:induction false} DeregAllModest(s: Slot, ptrs: seq<nat>, accepts: Returns)
    requires Modest(s.log)
    ensures Modest(DeregAll(s, ptrs, accepts).log)
  {
    hide Modest, DeregSlot;
    if ptrs != [] {
      DeregAllModest(s, ptrs[..|ptrs| - 1], accepts);
      DeregModest(DeregAll(s, ptrs[..|ptrs| - 1], accepts), ptrs[|ptrs| - 1], accepts);
    }
  }

  ghost predicate AllModest(v: Service) {
    forall k :: 0 <= k < |v.slots| ==> Modest(v.slots[k].log)
  }

  lemma StepModest(v: Service, step: Step)
    requires AllModest(v) && Legal(v, step) && SingleInputs([step])
    ensures AllModest(Apply(v, step))
  {
    assert [step][0] == step;
    hide Modest, RegSlot, DeregSlot;
    match step
    case Init(c, index, ok, version) => ModestAppend(v.slots[index].log, Started(ok, !v.slots[index].dsp || version));
    case Deinit(c, ptrs, accepts, stopped) =>
      DeregAllModest(v.slots[v.clients[c]], ptrs, accepts);
      ModestAppend(DeregAll(v.slots[v.clients[c]], ptrs, accepts).log, Stopped(stopped));
    case Reg(c, t, d, a) => RegModest(v.slots[v.clients[c]], t, d, a);
    case Dereg(c, ptr, accepts) => DeregModest(v.slots[v.clients[c]], ptr, accepts);
  }

  lemma {:induction false} RunModest(v: Service, steps: seq<Step>)
    requires AllModest(v) && Run(v, steps).Some? && SingleInputs(steps)
    ensures AllModest(Run(v, steps).value)
    decreases |steps|
  {
    hide AllModest, Legal, Apply;
    if steps != [] {
      StepModest(v, steps[0]);
      RunModest(Apply(v, steps[0]), steps[1..]);
    }
  }

  lemma {:induction false} NoSurplus(log: seq<Event>, p: nat)
    requires Modest(log)
    ensures Surpluses(log, p) >= 0
    ensures Surpluses(log, p) == 0 <==> forall i :: 0 <= i < |log| ==> Surplus(log[i], p) == 0
  {
    hide Surplus;
    if log != [] {
      NoSurplus(log[..|log| - 1], p);
      assert Surplus(log[|log| - 1], p) >= 0;
    }
  }

  /** Without live clients, as many registering calls as were accepted for a buffer were taken back, if and only if no
      event left one over: every registration of it was complete or not accepted at all, none was an NV12 input with
      both planes accepted (`SurplusIs`), and no call to take it back was refused. Never were more taken back. */
  lemma AllTakenBack(steps: seq<Step>, k: nat, p: nat)
    requires Run(NewService(), steps).Some? && k < SLOTS && p != NULL && SingleInputs(steps)
    requires ClientsAt(Run(NewService(), steps).value.clients, k) == {}
    ensures |Run(NewService(), steps).value.slots| == SLOTS
    ensures
      && var log := Run(NewService(), steps).value.slots[k].log;
      && Net(log, p) >= 0
      && (Net(log, p) == 0 <==> forall i :: 0 <= i < |log| ==> Surplus(log[i], p) == 0)
  {
    NothingLeft(steps, k);
    Conservation(steps, k, p);
    assert AllModest(NewService());
    RunModest(NewService(), steps);
    NoSurplus(Run(NewService(), steps).value.slots[k].log, p);
  }

  /** Null is registered like any other buffer and never taken back. */
  lemma {:induction false} NullCount(log: seq<Event>)
    requires WellLogged(log)
    ensures Net(log, NULL) >= 0
    ensures Net(log, NULL) == 0 <==>
      forall e <- log :: e.Registration? && e.ptr == NULL ==> true !in e.calls
  {
    if log != [] {
      var front, e := log[..|log| - 1], log[|log| - 1];
      NullCount(front);
      if e.Registration? {
        TruesAre(e.calls);
      }
      assert forall f :: f in log <==> f in front || f == e;
    }
  }

  // ---------------------------------------------------------------- runs

  /** The one client of slot k registers an image completely and leaves. */
  function Visit(c: Client, k: nat, d: Desc, a: Answer, accepts: Returns): seq<Step>
    requires !d.OtherDesc?
  {
    [Init(c, k, true, true), Reg(c, Some(In), d, a), Deinit(c, [d.ptr], accepts, true)]
  }

  lemma Visits(c: Client, k: nat, d: Desc, a: Answer, accepts: Returns)
    requires k < SLOTS && d.ImageDesc? && d.batch > 0 && d.ptr != NULL
    requires a.fd >= 0 && Accepted(IsDsp(k), In, d, a) && forall i :: accepts(d.ptr, i)
    ensures
      && var r := Run(NewService(), Visit(c, k, d, a, accepts));
      && r.Some? && r.value.clients == map[] && |r.value.slots| == SLOTS
      && Held(r.value.slots[k].log) == {} && !FadasProofs.Running(r.value.slots[k].log)
      && Net(r.value.slots[k].log, d.ptr) == Surplus(Registered(IsDsp(k), In, d, a), d.ptr)
  {
    hide Calls, Accepted, Net, Surpluses, Trues, Held, FadasProofs.Running;
    var v := NewService();
    var e := Registered(IsDsp(k), In, d, a);
    var s := v.slots[k];
    var v1 := Apply(v, Init(c, k, true, true));
    var s1 := s.(initialized := true, useRef := 1, log := [Started(true, true)]);
    assert s.log + [Started(true, true)] == s1.log && v1.slots[k] == s1;
    var v2 := Apply(v1, Reg(c, Some(In), d, a));
    var s2 := s1.(log := s1.log + [e], memMap := map[d.ptr := InfoOf(d, a.fd)]);
    assert v2.slots[k] == s2;
    var back := Deregistration(d.ptr, DeregCalls(s2, d.ptr, accepts));
    OneBack(s2, d.ptr, accepts);
    var v3 := Apply(v2, Deinit(c, [d.ptr], accepts, true));
    var log := s2.log + [back] + [Stopped(true)];
    assert v3.slots[k].log == log && v3.clients == map[];
    AcceptedCalls(IsDsp(k), In, d, a);
    assert false !in back.calls;
    Totals(e, back, d.ptr);
    TruesAre(back.calls);
    RunThree(v, Init(c, k, true, true), Reg(c, Some(In), d, a), Deinit(c, [d.ptr], accepts, true));
    assert |back.calls| == e.owed;
  }

  lemma OneBack(s: Slot, ptr: nat, accepts: Returns)
    requires ptr != NULL && s.memMap.Keys == {ptr}
    ensures
      && var d := DeregAll(s, [ptr], accepts);
      && d.log == s.log + [Deregistration(ptr, DeregCalls(s, ptr, accepts))] && d.memMap == map[]
  {
    assert [ptr][..0] == [] && DeregAll(s, [], accepts) == s;
  }

  lemma Totals(e: Event, back: Event, p: nat)
    requires e.Registration? && back.Deregistration? && e.ptr == back.ptr == p
    requires true in e.calls && false !in back.calls
    ensures
      && var log := [Started(true, true)] + [e] + [back] + [Stopped(true)];
      && Net(log, p) == Trues(e.calls) - Trues(back.calls) && Held(log) == {} && !FadasProofs.Running(log)
  {
    var l1 := [Started(true, true)];
    assert [] + l1 == l1;
    LogAppend([], Started(true, true));
    LogAppend(l1, e);
    LogAppend(l1 + [e], back);
    LogAppend(l1 + [e] + [back], Stopped(true));
    CountAppend([], Started(true, true), p);
    CountAppend(l1, e, p);
    CountAppend(l1 + [e], back, p);
    CountAppend(l1 + [e] + [back], Stopped(true), p);
  }

  /** An NV12 input taken by the library plane by plane is taken back by one call: one plane stays registered when all
      clients are gone, although every call was accepted. */
  lemma SecondPlaneStays(c: Client, ptr: nat, size: nat, accepts: Returns)
    requires ptr != NULL && forall i :: accepts(ptr, i)
    ensures
      && var r := Run(NewService(), Visit(c, 0, ImageDesc(ptr, size, 0, 1, true), Answer(1, 1, 1), accepts));
      && r.Some? && r.value.clients == map[] && |r.value.slots| == SLOTS && Net(r.value.slots[0].log, ptr) == 1
  {
    Visits(c, 0, ImageDesc(ptr, size, 0, 1, true), Answer(1, 1, 1), accepts);
    SurplusIs(true, In, ImageDesc(ptr, size, 0, 1, true), Answer(1, 1, 1));
  }

  /** An input that is a batch, against the source's note, is taken back more often than registered on the CPU. */
  lemma BatchTakenBackTwice(c: Client, ptr: nat, size: nat, accepts: Returns)
    requires ptr != NULL && forall i :: accepts(ptr, i)
    ensures
      && var r := Run(NewService(), Visit(c, 4, ImageDesc(ptr, size, 0, 2, false), Answer(1, 1, 0), accepts));
      && r.Some? && r.value.clients == map[] && |r.value.slots| == SLOTS && Net(r.value.slots[4].log, ptr) == -1
  {
    Visits(c, 4, ImageDesc(ptr, size, 0, 2, false), Answer(1, 1, 0), accepts);
    SurplusIs(false, In, ImageDesc(ptr, size, 0, 2, false), Answer(1, 1, 0));
  }
}
