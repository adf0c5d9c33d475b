/** FadasSrv: a client object; all clients share the tables of the service. */
module FadasSrvModule {
  import opened QCDefs
  import opened FadasSpec
  import opened FadasProofs

  /** The static members of the class, indexed by handle. */
  class Tables {
    var useRef: seq<nat>
    var initialized: seq<bool>
    var memMaps: seq<map<nat, MemInfo>>
    ghost var logs: seq<seq<Event>>

    constructor ()
      ensures Valid() && forall k :: 0 <= k < SLOTS ==> SlotAt(k) == NewSlot(k)
    {
      useRef := seq(SLOTS, _ => 0);
      initialized := seq(SLOTS, _ => false);
      memMaps := seq(SLOTS, _ => map[]);
      logs := seq(SLOTS, _ => []);
    }

    ghost predicate Valid()
      reads this
    {
      |useRef| == SLOTS && |initialized| == SLOTS && |memMaps| == SLOTS && |logs| == SLOTS
    }

    ghost function SlotAt(k: nat): Slot
      reads this
      requires Valid() && k < SLOTS
    {
      Slot(IsDsp(k), initialized[k], useRef[k], memMaps[k], logs[k])
    }

    ghost function Slots(): (r: seq<Slot>)
      reads this
      requires Valid()
      ensures |r| == SLOTS
    {
      seq(SLOTS, k requires 0 <= k < SLOTS reads this requires Valid() => SlotAt(k))
    }
  }

  class FadasSrv {
    const tables: Tables
    const soc8797: bool
    var processor: nat
    var handleIndex: nat

    constructor (tables: Tables, soc8797: bool)
      ensures this.tables == tables && this.soc8797 == soc8797
    {
      this.tables, this.soc8797 := tables, soc8797;
      processor, handleIndex := 0, 0;
    }

    /** Usable once Init has chosen a handle. */
    ghost predicate Valid()
      reads this, tables
    {
      tables.Valid() && handleIndex < SLOTS && (IsDsp(handleIndex) <==> processor != 4 && processor != 5)
    }

    predicate OnDsp()
      reads this
    {
      processor != 4 && processor != 5
    }

    /** Init; the library's answers to being started and being asked for its version are given. Only the first kind of
        processor looks at the core, on one chip; there cores beyond the last one have no slot. */
    method Init(processor: int, coreId: nat, started: bool, version: bool) returns (status: Status)
      requires tables.Valid() && (soc8797 && processor == 0 ==> coreId <= SLOTS - PROCESSORS)
      modifies this, tables
      ensures tables.Valid()
      ensures !Supported(soc8797, processor) ==>
        status == BadArguments && unchanged(this) && tables.Slots() == old(tables.Slots())
      ensures Supported(soc8797, processor) ==>
        && this.processor == processor && handleIndex == HandleIndex(soc8797, processor, coreId) < SLOTS && Valid()
        && var r := InitSlot(old(tables.Slots())[handleIndex], started, version);
        && status == r.1 && tables.Slots() == old(tables.Slots())[handleIndex := r.0]
    {
      if !Supported(soc8797, processor) {
        return BadArguments;
      }
      this.processor := processor;
      handleIndex := processor;
      if soc8797 && processor == 0 && coreId > 0 {
        handleIndex := PROCESSORS - 1 + coreId;
      }
      status := Use(started, version);
    }

    /** The rest of it: start the library if it is not in use, and count. */
    method Use(started: bool, version: bool) returns (status: Status)
      requires Valid()
      modifies tables
      ensures Valid()
      ensures
        var r := InitSlot(old(tables.Slots())[handleIndex], started, version);
        status == r.1 && tables.Slots() == old(tables.Slots())[handleIndex := r.0]
    {
      ghost var was := tables.Slots();
      var k := handleIndex;
      status := Ok;
      if !tables.initialized[k] {
        var answered := !OnDsp() || version;
        tables.logs := tables.logs[k := tables.logs[k] + [Started(started, answered)]];
        if started && answered {
          tables.initialized := tables.initialized[k := true];
        } else {
          status := Fail;
        }
      }
      if status == Ok {
        tables.useRef := tables.useRef[k := tables.useRef[k] + 1];
      }
      assert tables.Slots() == was[k := InitSlot(was[k], started, version).0];
    }

    /** Deinit. The status of the library is dropped. */
    method Deinit(accepts: Returns, stopped: bool) returns (status: Status, ghost ptrs: seq<nat>)
      requires Valid()
      modifies tables
      ensures Valid() && status == Ok
      ensures Enumerates(ptrs, old(tables.memMaps[handleIndex]))
      ensures tables.Slots() ==
        old(tables.Slots())[handleIndex := DeinitSlot(old(tables.Slots())[handleIndex], ptrs, accepts, stopped)]
    {
      var k := handleIndex;
      ghost var was := tables.Slots();
      var order := KeysOf(tables.memMaps[k]);
      ptrs := order;
      if tables.initialized[k] && tables.useRef[k] > 0 {
        tables.useRef := tables.useRef[k := tables.useRef[k] - 1];
        if tables.useRef[k] == 0 {
          ghost var counted := tables.Slots();
          assert counted == was[k := was[k].(useRef := 0)];
          DeregisterAll(order, accepts);
          DeregAllCount(was[k], order, accepts);
          ghost var after := tables.Slots();
          assert tables.SlotAt(k) == after[k];
          tables.memMaps := tables.memMaps[k := map[]];
          tables.initialized := tables.initialized[k := false];
          tables.logs := tables.logs[k := tables.logs[k] + [Stopped(stopped)]];
          assert forall j :: 0 <= j < SLOTS && j != k ==> tables.SlotAt(j) == after[j];
          DspStays(was[k], order, accepts);
        }
      }
      assert tables.Slots() == was[k := DeinitSlot(was[k], ptrs, accepts, stopped)];
      return Ok, ptrs;
    }

    method DeregisterAll(order: seq<nat>, accepts: Returns)
      requires Valid()
      modifies tables
      ensures Valid()
      ensures tables.Slots() ==
        old(tables.Slots())[handleIndex := DeregAll(old(tables.Slots())[handleIndex], order, accepts)]
      ensures tables.useRef == old(tables.useRef) && tables.initialized == old(tables.initialized)
    {
      hide DeregAll, DeregSlot;
      var k := handleIndex;
      ghost var was := tables.Slots();
      NoneDeregistered(accepts);
      for i := 0 to |order|
        invariant Valid() && tables.Slots() == was[k := DeregAll(was[k], order[..i], accepts)]
        invariant tables.useRef == old(tables.useRef) && tables.initialized == old(tables.initialized)
      {
        DeregOneMore(was[k], order, i, accepts);
        DeregBuf(order[i], accepts);
      }
      assert order[..|order|] == order;
    }

    method RegBuf(t: Option<BufType>, d: Desc, a: Answer) returns (fd: int)
      requires Valid() && (d.ImageDesc? ==> d.batch > 0)
      modifies tables
      ensures Valid()
      ensures
        var r := RegSlot(old(tables.Slots())[handleIndex], t, d, a);
        fd == r.1 && tables.Slots() == old(tables.Slots())[handleIndex := r.0]
    {
      ghost var was := tables.Slots();
      fd := -1;
      if t.Some? && d.ImageDesc? {
        fd := RegisterImage(t.value, d, a);
      } else if t.Some? && d.TensorDesc? {
        fd := RegisterTensor(t.value, d, a);
      } else {
        assert was == was[handleIndex := was[handleIndex]];
      }
    }

    /** FadasRegisterBuf with n calls, of which the library accepts so many before it refuses one. */
    method RegisterBuf(n: nat, accepted: nat) returns (ok: bool, ghost calls: seq<bool>)
      ensures ok == (n <= accepted) && calls == Answers(n, accepted)
    {
      ok, calls := true, [];
      var i := 0;
      while i < n && ok
        invariant 0 <= i <= n && |calls| == i
        invariant ok ==> i <= accepted && forall j :: 0 <= j < i ==> calls[j]
        invariant !ok ==> 0 < i && accepted == i - 1 && !calls[i - 1] && forall j :: 0 <= j < i - 1 ==> calls[j]
        decreases n - i, ok
      {
        ok := i < accepted;
        calls := calls + [ok];
        i := i + 1;
      }
    }

    method RegisterImage(t: BufType, d: Desc, a: Answer) returns (fd: int)
      requires Valid() && d.ImageDesc? && d.batch > 0
      modifies tables
      ensures Valid()
      ensures
        var r := RegSlot(old(tables.Slots())[handleIndex], Some(t), d, a);
        fd == r.1 && tables.Slots() == old(tables.Slots())[handleIndex := r.0]
    {
      hide Answers;
      ghost var was := tables.Slots();
      var k := handleIndex;
      if d.ptr !in tables.memMaps[k] {
        fd := a.fd;
        if fd >= 0 {
          ghost var mapped := if OnDsp() then [true] else [];
          var ok;
          ghost var calls;
          ok, calls := RegisterBuf(if t == In || OnDsp() then 1 else d.batch, a.first);
          if t == In && d.nv12 {
            ghost var more;
            ok, more := RegisterBuf(1, a.second);
            calls := calls + more;
          }
          assert mapped + calls == Calls(OnDsp(), t, d, a) by {
            var first := Answers(FirstCalls(OnDsp(), t, d), a.first);
            assert (mapped + first) + [] == mapped + first;
          }
          fd := Record(d, fd, ok, mapped + calls);
        }
      } else {
        var info := tables.memMaps[k][d.ptr];
        if d.ptr != info.ptr || d.size != info.size || d.offset != info.offset || d.batch != info.batch {
          fd := -1;
        } else {
          fd := info.fd;
        }
      }
      hide Calls;
      assert tables.Slots() == was[k := RegSlot(was[k], Some(t), d, a).0];
    }

    method RegisterTensor(t: BufType, d: Desc, a: Answer) returns (fd: int)
      requires Valid() && d.TensorDesc?
      modifies tables
      ensures Valid()
      ensures
        var r := RegSlot(old(tables.Slots())[handleIndex], Some(t), d, a);
        fd == r.1 && tables.Slots() == old(tables.Slots())[handleIndex := r.0]
    {
      hide Answers;
      ghost var was := tables.Slots();
      var k := handleIndex;
      if d.ptr !in tables.memMaps[k] {
        fd := a.fd;
        if fd >= 0 {
          ghost var mapped := if OnDsp() then [true] else [];
          var ok;
          ghost var calls;
          ok, calls := RegisterBuf(1, a.first);
          assert mapped + calls == Calls(OnDsp(), t, d, a) by {
            assert (mapped + calls) + [] == mapped + calls;
          }
          fd := Record(d, fd, ok, mapped + calls);
        }
      } else {
        fd := tables.memMaps[k][d.ptr].fd;
      }
      hide Calls;
      assert tables.Slots() == was[k := RegSlot(was[k], Some(t), d, a).0];
    }

    /** The calls are over: the entry is made if the registration counts as successful. */
    method Record(d: Desc, mapped: int, ok: bool, ghost calls: seq<bool>) returns (fd: int)
      requires Valid() && !d.OtherDesc? && (d.ImageDesc? ==> d.batch > 0)
      modifies tables
      ensures Valid() && fd == if ok then mapped else -1
      ensures
        var s := old(tables.Slots())[handleIndex];
        var batch := if d.ImageDesc? then d.batch else 1;
        var logged := s.(log := s.log + [Registration(d.ptr, calls, ok, if ok then Owed(OnDsp(), batch) else 0)]);
        tables.Slots() == old(tables.Slots())[handleIndex :=
          if ok then logged.(memMap := s.memMap[d.ptr := InfoOf(d, mapped)]) else logged]
    {
      var k := handleIndex;
      fd := -1;
      if ok {
        var memMap: map<nat, MemInfo> := tables.memMaps[k][d.ptr := InfoOf(d, mapped)];
        tables.memMaps := tables.memMaps[k := memMap];
        fd := mapped;
      }
      ghost var batch := if d.ImageDesc? then d.batch else 1;
      ghost var owed := if ok then Owed(OnDsp(), batch) else 0;
      tables.logs := tables.logs[k := tables.logs[k] + [Registration(d.ptr, calls, ok, owed)]];
    }

    /** The entry is erased first; what the library answers is logged only. */
    method DeregBuf(ptr: nat, accepts: Returns)
      requires Valid()
      modifies tables
      ensures Valid() && tables.useRef == old(tables.useRef) && tables.initialized == old(tables.initialized)
      ensures tables.Slots() ==
        old(tables.Slots())[handleIndex := DeregSlot(old(tables.Slots())[handleIndex], ptr, accepts)]
    {
      ghost var was := tables.Slots();
      var k := handleIndex;
      if ptr != NULL && ptr in tables.memMaps[k] {
        var n := if OnDsp() then 2 else tables.memMaps[k][ptr].batch;
        tables.memMaps := tables.memMaps[k := tables.memMaps[k] - {ptr}];
        ghost var calls: seq<bool> := [];
        for i := 0 to n
          invariant |calls| == i && forall j :: 0 <= j < i ==> calls[j] == accepts(ptr, j)
        {
          calls := calls + [accepts(ptr, i)];
        }
        assert calls == DeregCalls(was[k], ptr, accepts);
        tables.logs := tables.logs[k := tables.logs[k] + [Deregistration(ptr, calls)]];
      }
      assert tables.Slots() == was[k := DeregSlot(was[k], ptr, accepts)];
    }
  }

  lemma NoneDeregistered(accepts: Returns)
    ensures forall s :: DeregAll(s, [], accepts) == s
  {
  }

  lemma DeregOneMore(s: Slot, ptrs: seq<nat>, i: nat, accepts: Returns)
    requires i < |ptrs|
    ensures DeregAll(s, ptrs[..i + 1], accepts) == DeregSlot(DeregAll(s, ptrs[..i], accepts), ptrs[i], accepts)
  {
    assert ptrs[..i + 1][..i] == ptrs[..i];
  }

  /** Taking buffers back does not look at the use count. */
  lemma {:induction false} DeregAllCount(s: Slot, ptrs: seq<nat>, accepts: Returns)
    ensures forall n :: DeregAll(s.(useRef := n), ptrs, accepts) == DeregAll(s, ptrs, accepts).(useRef := n)
  {
    if ptrs != [] {
      DeregAllCount(s, ptrs[..|ptrs| - 1], accepts);
    }
  }

  lemma {:induction false} DspStays(s: Slot, ptrs: seq<nat>, accepts: Returns)
    ensures DeregAll(s, ptrs, accepts).dsp == s.dsp
  {
    if ptrs != [] {
      DspStays(s, ptrs[..|ptrs| - 1], accepts);
    }
  }

  /** The keys, in some order. */
  method KeysOf(m: map<nat, MemInfo>) returns (ptrs: seq<nat>)
    ensures Enumerates(ptrs, m)
  {
    ptrs := [];
    var todo := m.Keys;
    while todo != {}
      invariant todo <= m.Keys
      invariant (forall p <- ptrs :: p in m) && forall p <- m :: p in todo || p in ptrs
      decreases |todo|
    {
      var p :| p in todo;
      todo := todo - {p};
      ptrs := ptrs + [p];
    }
  }
}
