/** Use counts, registrations and what the library behind the service was told, over every run. */
module FadasProofs {
  import opened QCDefs
  import opened FadasSpec

  // ---------------------------------------------------------------- the library's view

  /** The library was started and not stopped since. */
  predicate Running(log: seq<Event>) {
    if log == [] then false
    else match log[|log| - 1]
      case Started(ok, _) => ok || Running(log[..|log| - 1])
      case Stopped(ok) => !ok && Running(log[..|log| - 1])
      case _ => Running(log[..|log| - 1])
  }

  /** It runs although the service does not count it as started: it started but did not tell its version, or it
      refused to stop. */
  predicate Astray(log: seq<Event>) {
    if log == [] then false
    else match log[|log| - 1]
      case Started(ok, version) => if ok then !version else Astray(log[..|log| - 1])
      case Stopped(ok) => !ok
      case _ => Astray(log[..|log| - 1])
  }

  /** The buffers of which the library accepted some part, and which it has not accepted to take back since. */
  function Held(log: seq<Event>): set<nat> {
    if log == [] then {}
    else
      var held := Held(log[..|log| - 1]);
      match log[|log| - 1]
      case Registration(p, calls, _, _) => if true in calls then held + {p} else held
      case Deregistration(p, calls) => if false in calls then held else held - {p}
      case _ => held
  }

  /** Those of them that no cache entry stands for. */
  function LeftBehind(log: seq<Event>): set<nat> {
    if log == [] then {}
    else
      var left := LeftBehind(log[..|log| - 1]);
      match log[|log| - 1]
      case Registration(p, calls, cached, _) =>
        if cached then left - {p} else if true in calls then left + {p} else left
      case Deregistration(p, calls) => if false in calls then left + {p} else left
      case Stopped(_) => Held(log[..|log| - 1])
      case Started(_, _) => left
  }

  /** e may follow what was logged: only a library that is not running, or astray, is started; buffers are registered,
      taken back and the library stopped only while it runs; a buffer is registered only if it is not held or was left
      behind, and taken back only if it is held with an entry; and at the stop nothing is held but null and what was
      left behind before. */
  predicate MayFollow(log: seq<Event>, e: Event) {
    match e
    case Started(_, _) => !Running(log) || Astray(log)
    case Registration(p, _, _, _) => Running(log) && (p !in Held(log) || p in LeftBehind(log))
    case Deregistration(p, _) => Running(log) && p in Held(log) && p !in LeftBehind(log) && p != NULL
    case Stopped(_) => Running(log) && Held(log) <= LeftBehind(log) + {NULL}
  }

  predicate WellLogged(log: seq<Event>) {
    log == [] || (WellLogged(log[..|log| - 1]) && MayFollow(log[..|log| - 1], log[|log| - 1]))
  }

  lemma LogAppend(log: seq<Event>, e: Event)
    ensures WellLogged(log + [e]) <==> WellLogged(log) && MayFollow(log, e)
    ensures Running(log + [e]) ==
      if e.Started? then e.ok || Running(log) else if e.Stopped? then !e.ok && Running(log) else Running(log)
    ensures Astray(log + [e]) ==
      if e.Started? then (if e.ok then !e.version else Astray(log)) else if e.Stopped? then !e.ok else Astray(log)
    ensures Held(log + [e]) ==
      if e.Registration? && true in e.calls then Held(log) + {e.ptr}
      else if e.Deregistration? && false !in e.calls then Held(log) - {e.ptr} else Held(log)
    ensures LeftBehind(log + [e]) ==
      if e.Registration? then
        (if e.cached then LeftBehind(log) - {e.ptr}
         else if true in e.calls then LeftBehind(log) + {e.ptr} else LeftBehind(log))
      else if e.Deregistration? && false in e.calls then LeftBehind(log) + {e.ptr}
      else if e.Stopped? then Held(log) else LeftBehind(log)
  {
    assert (log + [e])[..|log|] == log;
  }

  // ---------------------------------------------------------------- why a buffer is left behind

  /** Event i leaves p behind: a registration accepted in part, a refusal to take p back, or a stop with null held. */
  ghost predicate Loses(log: seq<Event>, i: nat, p: nat)
    requires i < |log|
  {
    match log[i]
    case Registration(q, calls, cached, _) => q == p && !cached && true in calls
    case Deregistration(q, calls) => q == p && false in calls
    case Stopped(_) => p == NULL && NULL in Held(log[..i])
    case Started(_, _) => false
  }

  /** A complete registration gives p an entry again. */
  predicate Settles(e: Event, p: nat) { e.Registration? && e.ptr == p && e.cached }

  ghost predicate Lost(log: seq<Event>, p: nat) {
    exists i :: 0 <= i < |log| && Loses(log, i, p) && forall j :: i < j < |log| ==> !Settles(log[j], p)
  }

  lemma LostAppend(log: seq<Event>, e: Event, p: nat)
    ensures Lost(log + [e], p) <==> Loses(log + [e], |log|, p) || (Lost(log, p) && !Settles(e, p))
  {
    var all := log + [e];
    forall i | 0 <= i < |log| ensures Loses(all, i, p) <==> Loses(log, i, p) {
      assert all[..i] == log[..i];
    }
    if Lost(all, p) && !Loses(all, |log|, p) {
      var i :| 0 <= i < |all| && Loses(all, i, p) && forall j :: i < j < |all| ==> !Settles(all[j], p);
      assert Loses(log, i, p) && forall j :: i < j < |log| ==> !Settles(log[j], p) by {
        forall j | i < j < |log| ensures !Settles(log[j], p) {
          assert !Settles(all[j], p);
        }
      }
      assert !Settles(all[|log|], p);
    }
    if Lost(log, p) && !Settles(e, p) {
      var i :| 0 <= i < |log| && Loses(log, i, p) && forall j :: i < j < |log| ==> !Settles(log[j], p);
      assert Loses(all, i, p) && forall j :: i < j < |all| ==> !Settles(all[j], p);
    }
    if Loses(all, |log|, p) {
      LostLast(all, p);
    }
  }

  lemma LostLast(log: seq<Event>, p: nat)
    requires log != [] && Loses(log, |log| - 1, p)
    ensures Lost(log, p)
  {
  }

  /** A buffer is held without an entry if and only if one of the three things happened to it and it was not completely
      registered since. */
  lemma {:induction false} LeftBehindIs(log: seq<Event>)
    requires WellLogged(log)
    ensures LeftBehind(log) <= Held(log)
    ensures forall p :: p in LeftBehind(log) <==> Lost(log, p)
  {
    hide Lost;
    if log == [] {
      assert forall p :: !Lost([], p) by {
        NothingLost();
      }
    } else {
      var front, e := log[..|log| - 1], log[|log| - 1];
      assert log == front + [e];
      LeftBehindIs(front);
      LogAppend(front, e);
      forall p ensures p in LeftBehind(log) <==> Lost(log, p) {
        LostAppend(front, e, p);
        assert log[..|front|] == front;
      }
    }
  }

  lemma NothingLost()
    ensures forall p :: !Lost([], p)
  {
  }

  // ---------------------------------------------------------------- one processor

  /** The buffers the library holds are those with an entry and those left behind. */
  ghost predicate Mirrors(memMap: map<nat, MemInfo>, log: seq<Event>) {
    && Held(log) == memMap.Keys + LeftBehind(log) && memMap.Keys !! LeftBehind(log)
    && forall p <- memMap :: memMap[p].ptr == p
  }

  ghost predicate SlotOk(s: Slot) {
    && (s.initialized <==> s.useRef > 0)
    && (s.useRef == 0 ==> s.memMap == map[])
    && Mirrors(s.memMap, s.log) && WellLogged(s.log)
    && (Running(s.log) <==> s.initialized || Astray(s.log))
    && (s.initialized ==> !Astray(s.log))
  }

  lemma InitKeeps(s: Slot, ok: bool, version: bool)
    requires SlotOk(s)
    ensures SlotOk(InitSlot(s, ok, version).0)
    ensures InitSlot(s, ok, version).0.useRef == if InitSlot(s, ok, version).1 == Ok then s.useRef + 1 else s.useRef
  {
    LogAppend(s.log, Started(ok, !s.dsp || version));
  }

  lemma DeregKeeps(s: Slot, ptr: nat, accepts: Returns)
    requires SlotOk(s) && s.initialized
    ensures
      && var d := DeregSlot(s, ptr, accepts);
      && SlotOk(d) && d.initialized && d.useRef == s.useRef
      && d.memMap == s.memMap - (if ptr == NULL then {} else {ptr})
  {
    if ptr != NULL && ptr in s.memMap {
      LogAppend(s.log, Deregistration(ptr, DeregCalls(s, ptr, accepts)));
    }
  }

  /** Visiting all entries leaves at most that of null. */
  lemma {:induction false} DeregAllKeeps(s: Slot, ptrs: seq<nat>, accepts: Returns)
    requires SlotOk(s) && s.initialized
    ensures
      && var d := DeregAll(s, ptrs, accepts);
      && SlotOk(d) && d.initialized && d.useRef == s.useRef
      && forall p :: p in d.memMap <==> p in s.memMap && (p !in ptrs || p == NULL)
  {
    hide SlotOk, DeregSlot;
    if ptrs != [] {
      DeregAllKeeps(s, ptrs[..|ptrs| - 1], accepts);
      DeregKeeps(DeregAll(s, ptrs[..|ptrs| - 1], accepts), ptrs[|ptrs| - 1], accepts);
      assert ptrs == ptrs[..|ptrs| - 1] + [ptrs[|ptrs| - 1]];
    }
  }

  lemma StopKeeps(d: Slot, stopped: bool)
    requires SlotOk(d) && d.initialized && d.memMap.Keys <= {NULL}
    ensures SlotOk(d.(initialized := false, useRef := 0, memMap := map[], log := d.log + [Stopped(stopped)]))
  {
    LogAppend(d.log, Stopped(stopped));
  }

  lemma DeinitKeeps(s: Slot, ptrs: seq<nat>, accepts: Returns, stopped: bool)
    requires SlotOk(s) && Enumerates(ptrs, s.memMap)
    ensures SlotOk(DeinitSlot(s, ptrs, accepts, stopped))
    ensures DeinitSlot(s, ptrs, accepts, stopped).useRef == if s.useRef == 0 then 0 else s.useRef - 1
  {
    if LastUse(s) {
      DeregAllKeeps(s, ptrs, accepts);
      StopKeeps(DeregAll(s, ptrs, accepts), stopped);
    }
  }

  /** An accepted registration has at least one accepted call. */
  lemma AcceptedCalls(dsp: bool, t: BufType, d: Desc, a: Answer)
    requires Accepted(dsp, t, d, a) && (d.ImageDesc? ==> d.batch > 0)
    ensures true in Calls(dsp, t, d, a)
  {
    var first, second := Answers(FirstCalls(dsp, t, d), a.first), Answers(1, a.second);
    if PlaneByPlane(t, d) {
      assert second[0] && second[0] in Calls(dsp, t, d, a);
    } else {
      assert first[0] && first[0] in Calls(dsp, t, d, a);
    }
  }

  lemma RegKeeps(s: Slot, t: Option<BufType>, d: Desc, a: Answer)
    requires SlotOk(s) && s.initialized && (d.ImageDesc? ==> d.batch > 0)
    ensures SlotOk(RegSlot(s, t, d, a).0) && RegSlot(s, t, d, a).0.useRef == s.useRef
  {
    hide Calls, Accepted;
    if t.Some? && !d.OtherDesc? && d.ptr !in s.memMap && a.fd >= 0 {
      var e := Registered(s.dsp, t.value, d, a);
      assert e.Registration? && e.ptr == d.ptr && e.cached == Accepted(s.dsp, t.value, d, a);
      if e.cached {
        AcceptedCalls(s.dsp, t.value, d, a);
      }
      assert e.cached ==> true in e.calls;
      LoggedKeeps(s, e, InfoOf(d, a.fd));
      hide Registered, SlotOk, InfoOf;
    }
  }

  /** An event of a registration, with its entry when it was cached. */
  lemma LoggedKeeps(s: Slot, e: Event, info: MemInfo)
    requires SlotOk(s) && s.initialized && e.Registration? && e.ptr !in s.memMap
    requires (e.cached ==> true in e.calls) && info.ptr == e.ptr
    ensures
      var logged := s.(log := s.log + [e]);
      SlotOk(if e.cached then logged.(memMap := s.memMap[e.ptr := info]) else logged)
  {
    LogAppend(s.log, e);
    hide WellLogged, Held, LeftBehind, Astray;
  }

  // ---------------------------------------------------------------- the service

  ghost function ClientsAt(clients: map<Client, nat>, index: nat): set<Client> {
    set c | c in clients && clients[c] == index
  }

  /** The use count of each processor is the number of its live clients. */
  ghost predicate Inv(v: Service) {
    && (forall c <- v.clients :: v.clients[c] < |v.slots|)
    && (forall k :: 0 <= k < |v.slots| ==> SlotOk(v.slots[k]) && v.slots[k].useRef == |ClientsAt(v.clients, k)|)
  }

  lemma ClientAdded(clients: map<Client, nat>, c: Client, index: nat, k: nat)
    requires c !in clients
    ensures |ClientsAt(clients[c := index], k)| == |ClientsAt(clients, k)| + if k == index then 1 else 0
  {
    var at := ClientsAt(clients, k);
    assert ClientsAt(clients[c := index], k) == if k == index then at + {c} else at;
  }

  lemma ClientRemoved(clients: map<Client, nat>, c: Client, k: nat)
    requires c in clients
    ensures |ClientsAt(clients - {c}, k)| == |ClientsAt(clients, k)| - if k == clients[c] then 1 else 0
  {
    assert ClientsAt(clients - {c}, k) == ClientsAt(clients, k) - {c};
  }

  /** A processor with a live client is in use. */
  lemma LiveIsInitialized(v: Service, c: Client)
    requires Inv(v) && c in v.clients
    ensures v.clients[c] < |v.slots| && v.slots[v.clients[c]].initialized && v.slots[v.clients[c]].useRef > 0
  {
    assert c in ClientsAt(v.clients, v.clients[c]);
  }

  lemma StepKeeps(v: Service, step: Step)
    requires Inv(v) && Legal(v, step)
    ensures Inv(Apply(v, step)) && |Apply(v, step).slots| == |v.slots|
  {
    hide SlotOk, InitSlot, DeinitSlot, RegSlot, DeregSlot, ClientsAt, Enumerates;
    match step
    case Init(c, index, ok, version) =>
      InitKeeps(v.slots[index], ok, version);
      forall k | 0 <= k < |v.slots|
        ensures |ClientsAt(v.clients[c := index], k)| == |ClientsAt(v.clients, k)| + if k == index then 1 else 0
      {
        ClientAdded(v.clients, c, index, k);
      }
    case Deinit(c, ptrs, accepts, stopped) =>
      LiveIsInitialized(v, c);
      DeinitKeeps(v.slots[v.clients[c]], ptrs, accepts, stopped);
      forall k | 0 <= k < |v.slots|
        ensures |ClientsAt(v.clients - {c}, k)| == |ClientsAt(v.clients, k)| - if k == v.clients[c] then 1 else 0
      {
        ClientRemoved(v.clients, c, k);
      }
    case Reg(c, t, d, a) =>
      LiveIsInitialized(v, c);
      RegKeeps(v.slots[v.clients[c]], t, d, a);
    case Dereg(c, ptr, accepts) =>
      LiveIsInitialized(v, c);
      DeregKeeps(v.slots[v.clients[c]], ptr, accepts);
  }

  /** The invariant holds over every run. */
  lemma {:induction false} Safety(v: Service, steps: seq<Step>)
    requires Inv(v) && Run(v, steps).Some?
    ensures Inv(Run(v, steps).value) && |Run(v, steps).value.slots| == |v.slots|
    decreases |steps|
  {
    hide Inv, Legal, Apply;
    if steps != [] {
      StepKeeps(v, steps[0]);
      Safety(Apply(v, steps[0]), steps[1..]);
    }
  }

  lemma NewServiceOk()
    ensures Inv(NewService())
  {
    forall k | 0 <= k < SLOTS ensures ClientsAt(map[], k) == {} {
    }
  }

  /** At every moment of every run: the library holds a buffer without an entry if and only if a registration of it was
      accepted in part, or a call to take it back refused, or it is null and the service stopped, and it was not
      completely registered since; so it holds exactly the entries if and only if that happened to no buffer. It runs
      exactly while the processor is in use if and only if it is not astray. */
  lemma HeldIsCached(steps: seq<Step>, k: nat)
    requires Run(NewService(), steps).Some? && k < SLOTS
    ensures |Run(NewService(), steps).value.slots| == SLOTS
    ensures
      && var s := Run(NewService(), steps).value.slots[k];
      && (forall p :: p in Held(s.log) && p !in s.memMap <==> Lost(s.log, p))
      && (Held(s.log) == s.memMap.Keys <==> forall p :: !Lost(s.log, p))
      && ((Running(s.log) <==> s.initialized) <==> !Astray(s.log))
  {
    hide Lost;
    NewServiceOk();
    Safety(NewService(), steps);
    var s := Run(NewService(), steps).value.slots[k];
    assert SlotOk(s);
    LeftBehindIs(s.log);
    if Held(s.log) == s.memMap.Keys {
      assert LeftBehind(s.log) == {};
    } else {
      var p :| p in LeftBehind(s.log);
      assert Lost(s.log, p);
    }
  }

  /** Without live clients no processor is in use and no buffer is cached. The library holds none, and is not running,
      exactly under the conditions above. */
  lemma NothingLeft(steps: seq<Step>, k: nat)
    requires Run(NewService(), steps).Some? && k < SLOTS
    requires ClientsAt(Run(NewService(), steps).value.clients, k) == {}
    ensures |Run(NewService(), steps).value.slots| == SLOTS
    ensures
      && var s := Run(NewService(), steps).value.slots[k];
      && !s.initialized && s.useRef == 0 && s.memMap == map[]
      && (Held(s.log) == {} <==> forall p :: !Lost(s.log, p))
      && (!Running(s.log) <==> !Astray(s.log))
  {
    hide Lost;
    NewServiceOk();
    Safety(NewService(), steps);
    HeldIsCached(steps, k);
    assert SlotOk(Run(NewService(), steps).value.slots[k]);
  }

  // ---------------------------------------------------------------- registering

  /** This step does not take the entry of p from processor k: no deregistration of it there, and no last Deinit. */
  predicate Spares(v: Service, step: Step, k: nat, p: nat) {
    match step
    case Dereg(c, ptr, _) => !(c in v.clients && v.clients[c] == k && ptr == p && p != NULL)
    case Deinit(c, _, _, _) => !(c in v.clients && v.clients[c] == k && k < |v.slots| && LastUse(v.slots[k]))
    case _ => true
  }

  predicate SparesRun(v: Service, steps: seq<Step>, k: nat, p: nat)
    decreases |steps|
  {
    steps == [] ||
    (Spares(v, steps[0], k, p) && Legal(v, steps[0]) && SparesRun(Apply(v, steps[0]), steps[1..], k, p))
  }

  lemma EntryStep(v: Service, step: Step, k: nat, p: nat)
    requires Legal(v, step) && Spares(v, step, k, p) && k < |v.slots| && p in v.slots[k].memMap
    ensures
      && var w := Apply(v, step);
      && |w.slots| == |v.slots| && p in w.slots[k].memMap && w.slots[k].memMap[p] == v.slots[k].memMap[p]
  {
    hide Calls, Accepted, DeregAll;
  }

  lemma {:induction false} EntryStays(v: Service, steps: seq<Step>, k: nat, p: nat)
    requires Run(v, steps).Some? && SparesRun(v, steps, k, p) && k < |v.slots| && p in v.slots[k].memMap
    ensures
      && var w := Run(v, steps).value;
      && |w.slots| == |v.slots| && p in w.slots[k].memMap && w.slots[k].memMap[p] == v.slots[k].memMap[p]
    decreases |steps|
  {
    hide Apply, Legal, Spares;
    if steps != [] {
      EntryStep(v, steps[0], k, p);
      EntryStays(Apply(v, steps[0]), steps[1..], k, p);
    }
  }

  /** However long after, and whatever all clients did in between short of taking the buffer back, registering it again
      changes nothing and asks the library for nothing; an image that matches what was registered, and any tensor, gets
      the stored descriptor. */
  lemma RegisteredTwice(v: Service, c: Client, t: Option<BufType>, d: Desc, a: Answer, steps: seq<Step>,
                        t2: Option<BufType>, d2: Desc, a2: Answer)
    requires Legal(v, Reg(c, t, d, a)) && (d2.ImageDesc? ==> d2.batch > 0)
    requires t2.Some? && !d.OtherDesc? && !d2.OtherDesc? && d2.ptr == d.ptr
    requires d.ptr !in v.slots[v.clients[c]].memMap && RegSlot(v.slots[v.clients[c]], t, d, a).1 >= 0
    requires Run(Apply(v, Reg(c, t, d, a)), steps).Some?
    requires SparesRun(Apply(v, Reg(c, t, d, a)), steps, v.clients[c], d.ptr)
    ensures
      && var k, w := v.clients[c], Run(Apply(v, Reg(c, t, d, a)), steps).value;
      && k < |w.slots|
      && var again := RegSlot(w.slots[k], t2, d2, a2);
      && again.0 == w.slots[k]
      && var batch := if d.ImageDesc? then d.batch else 1;
      && (again.1 == a.fd <==>
        d2.TensorDesc? || (d2.size == d.size && d2.offset == d.offset && d2.batch == batch))
  {
    hide Calls, Accepted;
    var k, m := v.clients[c], Apply(v, Reg(c, t, d, a));
    assert m.slots[k].memMap[d.ptr] == InfoOf(d, a.fd);
    hide Apply, Legal;
    EntryStays(m, steps, k, d.ptr);
  }

  /** When every call, and when some call for a buffer is accepted. */
  lemma CallsAre(dsp: bool, t: BufType, d: Desc, a: Answer)
    requires (d.ImageDesc? ==> d.batch > 0) && a.fd >= 0
    ensures false !in Calls(dsp, t, d, a) <==>
      a.first >= FirstCalls(dsp, t, d) && (PlaneByPlane(t, d) ==> a.second >= 1)
    ensures true in Calls(dsp, t, d, a) <==> dsp || a.first > 0 || (PlaneByPlane(t, d) && a.second > 0)
  {
    AnswersAre(FirstCalls(dsp, t, d), a.first);
    AnswersAre(1, a.second);
  }

  lemma AnswersAre(n: nat, accepted: nat)
    requires n > 0
    ensures false !in Answers(n, accepted) <==> n <= accepted
    ensures true in Answers(n, accepted) <==> accepted > 0
  {
    var r := Answers(n, accepted);
    if n > accepted {
      assert !r[accepted];
    }
    if accepted > 0 {
      assert r[0];
    }
  }

  /** A new buffer that the library did not take completely is reported as registered in exactly one case: the first
      plane of an NV12 input is refused and the second is not. */
  lemma RefusedPlaneIsMissed(s: Slot, t: BufType, d: Desc, a: Answer)
    requires (d.ImageDesc? ==> d.batch > 0) && !d.OtherDesc? && d.ptr !in s.memMap
    ensures RegSlot(s, Some(t), d, a).1 >= 0 && false in Calls(s.dsp, t, d, a) <==>
      PlaneByPlane(t, d) && a.fd >= 0 && a.first == 0 && a.second >= 1
  {
    if a.fd >= 0 {
      CallsAre(s.dsp, t, d, a);
    }
    hide Calls;
  }

  /** Such a call: the mapping succeeds, the first plane is refused and the second is not. */
  lemma MissedPlane(s: Slot, ptr: nat, size: nat)
    requires ptr !in s.memMap
    ensures
      && var d, a := ImageDesc(ptr, size, 0, 1, true), Answer(3, 0, 1);
      && RegSlot(s, Some(In), d, a).1 == 3 && ptr in RegSlot(s, Some(In), d, a).0.memMap
      && false in Calls(s.dsp, In, d, a)
  {
    RefusedPlaneIsMissed(s, In, ImageDesc(ptr, size, 0, 1, true), Answer(3, 0, 1));
  }

  /** And one that it took in part is reported as refused exactly when the last registration failed after an accepted
      call: on a signal processor the mapping, elsewhere an earlier element of the batch, or the first plane. */
  lemma PartIsLeftBehind(s: Slot, t: BufType, d: Desc, a: Answer)
    requires SlotOk(s) && (d.ImageDesc? ==> d.batch > 0) && !d.OtherDesc? && d.ptr !in s.memMap
    requires d.ptr !in Held(s.log)
    ensures
      && var r := RegSlot(s, Some(t), d, a);
      && (r.1 < 0 && d.ptr in Held(r.0.log) <==>
           && a.fd >= 0
           && (if PlaneByPlane(t, d) then a.second == 0 else a.first < FirstCalls(s.dsp, t, d))
           && (s.dsp || a.first > 0))
      && (r.1 < 0 && d.ptr in Held(r.0.log) ==> d.ptr in LeftBehind(r.0.log) && d.ptr !in r.0.memMap)
  {
    LogAppend(s.log, Registered(s.dsp, t, d, a));
    if a.fd >= 0 {
      CallsAre(s.dsp, t, d, a);
    }
    hide Calls, Held, LeftBehind;
  }

  /** The last use ends with nothing held exactly when null was not held, nothing was left behind before, and every
      call to take a buffer back was accepted. */
  lemma NullIsNeverTakenBack(s: Slot, ptrs: seq<nat>, accepts: Returns, stopped: bool)
    requires SlotOk(s) && LastUse(s) && Enumerates(ptrs, s.memMap)
    ensures Held(DeinitSlot(s, ptrs, accepts, stopped).log) == {} <==>
      && NULL !in Held(s.log) && LeftBehind(s.log) == {}
      && forall p <- s.memMap :: false !in DeregCalls(s, p, accepts)
  {
    DeregAllKeeps(s, ptrs, accepts);
    DeregAllHolds(s, ptrs, accepts);
    LogAppend(DeregAll(s, ptrs, accepts).log, Stopped(stopped));
    hide DeregCalls;
    var held := Held(DeregAll(s, ptrs, accepts).log);
    if held == {} {
      forall p | p in s.memMap ensures false !in DeregCalls(s, p, accepts) {
        assert p in Held(s.log) && p !in held;
      }
      assert LeftBehind(s.log) <= held;
      assert NULL !in held;
    }
  }

  /** A null buffer that was registered is still held when its only client is gone, although every call was accepted. */
  lemma NullStays(c: Client, size: nat, accepts: Returns)
    requires forall p, i :: accepts(p, i)
    ensures
      && var reg := Reg(c, Some(In), TensorDesc(NULL, size, 0), Answer(1, 1, 0));
      && var r := Run(NewService(), [Init(c, 0, true, true), reg, Deinit(c, [NULL], accepts, true)]);
      && r.Some? && r.value.clients == map[] && |r.value.slots| == SLOTS && r.value.slots[0].memMap == map[]
      && NULL in Held(r.value.slots[0].log)
  {
    var d, a := TensorDesc(NULL, size, 0), Answer(1, 1, 0);
    var v := NewService();
    var v1 := Apply(v, Init(c, 0, true, true));
    var v2 := Apply(v1, Reg(c, Some(In), d, a));
    assert [] + [Started(true, true)] == [Started(true, true)];
    CallsAre(true, In, d, a);
    AcceptedCalls(true, In, d, a);
    LogAppend([Started(true, true)], Registered(true, In, d, a));
    hide Calls, Held;
    assert [NULL][..0] == [] && DeregAll(v2.slots[0], [], accepts) == v2.slots[0];
    assert DeregAll(v2.slots[0], [NULL], accepts) == v2.slots[0];
    LogAppend(v2.slots[0].log, Stopped(true));
    var v3 := Apply(v2, Deinit(c, [NULL], accepts, true));
    assert v3.clients == map[];
    RunThree(v, Init(c, 0, true, true), Reg(c, Some(In), d, a), Deinit(c, [NULL], accepts, true));
  }

  /** What is still held after visiting some entries. */
  lemma {:induction false} DeregAllHolds(s: Slot, ptrs: seq<nat>, accepts: Returns)
    requires SlotOk(s) && s.initialized
    ensures forall p :: p in Held(DeregAll(s, ptrs, accepts).log) <==>
      p in Held(s.log) && !(p in ptrs && p != NULL && p in s.memMap && false !in DeregCalls(s, p, accepts))
  {
    hide DeregCalls;
    if ptrs != [] {
      var front, ptr := ptrs[..|ptrs| - 1], ptrs[|ptrs| - 1];
      var d := DeregAll(s, front, accepts);
      DeregAllHolds(s, front, accepts);
      DeregAllKeeps(s, front, accepts);
      assert ptrs == front + [ptr];
      if ptr != NULL && ptr in d.memMap {
        DeregAllSame(s, front, accepts, ptr);
        LogAppend(d.log, Deregistration(ptr, DeregCalls(d, ptr, accepts)));
      }
    }
  }

  lemma {:induction false} DeregAllSame(s: Slot, ptrs: seq<nat>, accepts: Returns, p: nat)
    requires p in DeregAll(s, ptrs, accepts).memMap
    ensures p in s.memMap && DeregCalls(DeregAll(s, ptrs, accepts), p, accepts) == DeregCalls(s, p, accepts)
    ensures DeregAll(s, ptrs, accepts).dsp == s.dsp && DeregAll(s, ptrs, accepts).memMap[p] == s.memMap[p]
  {
    if ptrs != [] {
      DeregAllSame(s, ptrs[..|ptrs| - 1], accepts, p);
    }
  }

  /** A call of RegBuf for a processor nobody uses, by a client that is no longer live, breaks the invariant exactly
      when the buffer gets an entry, or a library that is not running is called. */
  lemma StaleRegistration(s: Slot, t: Option<BufType>, d: Desc, a: Answer)
    requires SlotOk(s) && !s.initialized && (d.ImageDesc? ==> d.batch > 0)
    ensures SlotOk(RegSlot(s, t, d, a).0) <==>
      t.None? || d.OtherDesc? || a.fd < 0 || (Running(s.log) && !Accepted(s.dsp, t.value, d, a))
  {
    hide Calls, Accepted;
    if t.Some? && !d.OtherDesc? && a.fd >= 0 {
      var e := Registered(s.dsp, t.value, d, a);
      LogAppend(s.log, e);
      assert e.ptr == d.ptr && e.cached == Accepted(s.dsp, t.value, d, a);
      hide Registered;
      if Accepted(s.dsp, t.value, d, a) {
        assert d.ptr in RegSlot(s, t, d, a).0.memMap;
      }
    }
  }

  // ---------------------------------------------------------------- runs

  /** A signal processor keeps the first plane of an image that was refused, after the last client is gone. */
  lemma PlaneLeftBehindRun(c: Client, ptr: nat, size: nat, accepts: Returns)
    requires size > 0
    ensures
      && var d := ImageDesc(ptr, size, 0, 1, true);
      && var reg := Reg(c, Some(In), d, Answer(1, 1, 0));
      && var r := Run(NewService(), [Init(c, 0, true, true), reg, Deinit(c, [], accepts, true)]);
      && r.Some? && r.value.clients == map[] && |r.value.slots| == SLOTS && r.value.slots[0].memMap == map[]
      && Held(r.value.slots[0].log) == {ptr} && !Running(r.value.slots[0].log)
  {
    var v := NewService();
    var d, a := ImageDesc(ptr, size, 0, 1, true), Answer(1, 1, 0);
    var s0, calls := v.slots[0], Calls(true, In, d, a);
    var v1 := Apply(v, Init(c, 0, true, true));
    var s1 := s0.(initialized := true, useRef := 1, log := [Started(true, true)]);
    assert s0.log + [Started(true, true)] == s1.log && v1.slots[0] == s1;
    CallsAre(true, In, d, a);
    var v2 := Apply(v1, Reg(c, Some(In), d, a));
    var s2 := s1.(log := s1.log + [Registration(ptr, calls, false, 0)]);
    assert v2.slots[0] == s2;
    var v3 := Apply(v2, Deinit(c, [], accepts, true));
    var s3 := s2.(initialized := false, useRef := 0, log := s2.log + [Stopped(true)]);
    assert v3.slots[0] == s3 && v3.clients == map[];
    PlaneLog(ptr, calls);
    assert s3.log == [Started(true, true)] + [Registration(ptr, calls, false, 0)] + [Stopped(true)];
    hide Apply, Legal, Calls, Held;
    RunThree(v, Init(c, 0, true, true), Reg(c, Some(In), d, a), Deinit(c, [], accepts, true));
  }

  lemma PlaneLog(ptr: nat, calls: seq<bool>)
    requires true in calls
    ensures
      && var log := [Started(true, true)] + [Registration(ptr, calls, false, 0)] + [Stopped(true)];
      && Held(log) == {ptr} && !Running(log)
  {
    var l1 := [Started(true, true)];
    assert [] + l1 == l1;
    LogAppend([], Started(true, true));
    LogAppend(l1, Registration(ptr, calls, false, 0));
    LogAppend(l1 + [Registration(ptr, calls, false, 0)], Stopped(true));
  }

  lemma RunThree(v: Service, a: Step, b: Step, c: Step)
    requires Legal(v, a) && Legal(Apply(v, a), b) && Legal(Apply(Apply(v, a), b), c)
    ensures Run(v, [a, b, c]) == Some(Apply(Apply(Apply(v, a), b), c))
  {
    hide Legal, Apply;
    var w := Apply(Apply(v, a), b);
    assert [c][1..] == [] && Run(w, [c]) == Some(Apply(w, c));
    assert [b, c][1..] == [c] && Run(Apply(v, a), [b, c]) == Run(w, [c]);
    assert [a, b, c][1..] == [b, c];
  }

  /** A library that starts but does not tell its version is started again while it runs. */
  lemma StartedTwiceRun(c: Client)
    ensures
      && var r := Run(NewService(), [Init(c, 0, true, false), Init(c, 0, true, true)]);
      && r.Some? && |r.value.slots| == SLOTS && r.value.slots[0].log == [Started(true, false), Started(true, true)]
      && Running([Started(true, false)]) && r.value.slots[0].useRef == 1
  {
    var v := NewService();
    var v1 := Apply(v, Init(c, 0, true, false));
    assert v.slots[0].log + [Started(true, false)] == [Started(true, false)];
    assert [Init(c, 0, true, false), Init(c, 0, true, true)][1..] == [Init(c, 0, true, true)];
    assert [Init(c, 0, true, true)][1..] == [];
    var v2 := Apply(v1, Init(c, 0, true, true));
    assert v2.slots[0].log == [Started(true, false)] + [Started(true, true)];
    assert Run(v1, [Init(c, 0, true, true)]) == Some(v2);
  }
}
