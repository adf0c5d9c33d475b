/** Which slot a client gets, and exactly what each call answers. */
module FadasSlots {
  import opened QCDefs
  import opened FadasSpec
  import opened FadasProofs

  /** HTP0, HTP1, the CPU and the GPU are supported everywhere, HTP2 and HTP3 on one kind of chip. */
  lemma SupportedIff(soc8797: bool, processor: int)
    ensures Supported(soc8797, processor) <==> 0 <= processor <= 5 && (processor == 2 || processor == 3 ==> soc8797)
  {
  }

  /** Two clients share a slot if and only if they use the same processor and, on HTP0 of that chip, the same core;
      signal processors have slots of their own kind. */
  lemma SlotsApart(soc8797: bool, p: nat, core: nat, q: nat, other: nat)
    requires Supported(soc8797, p) && Supported(soc8797, q) && core <= 3 && other <= 3
    ensures HandleIndex(soc8797, p, core) < 9
    ensures HandleIndex(soc8797, p, core) == HandleIndex(soc8797, q, other) <==>
      p == q && (soc8797 && p == 0 ==> core == other)
    ensures IsDsp(HandleIndex(soc8797, p, core)) <==> p < 4
    ensures core == 0 || !soc8797 || p != 0 ==> HandleIndex(soc8797, p, core) == p
  {
  }

  /** Init: the first use starts the library, and on a signal processor asks for its version; it fails exactly when one
      of them does, and only then nobody is counted. */
  lemma InitIs(s: Slot, ok: bool, version: bool)
    ensures
      && var (n, status) := InitSlot(s, ok, version);
      && (status == Ok <==> s.initialized || (ok && (s.dsp ==> version)))
      && (status != Ok ==> status == Fail && n.useRef == s.useRef && n.initialized == s.initialized)
      && (status == Ok ==> n.useRef == s.useRef + 1 && n.initialized)
      && n.memMap == s.memMap && n.dsp == s.dsp
      && n.log == if s.initialized then s.log else s.log + [Started(ok, !s.dsp || version)]
  {
  }

  /** Deinit: one use less; the last one stops the library, whatever it answers, and leaves nothing in the cache; on a
      slot that is not in use nothing happens. */
  lemma DeinitIs(s: Slot, ptrs: seq<nat>, accepts: Returns, stopped: bool)
    ensures
      && var n := DeinitSlot(s, ptrs, accepts, stopped);
      && (!s.initialized || s.useRef == 0 ==> n == s)
      && (s.initialized && s.useRef > 1 ==>
        n.useRef == s.useRef - 1 && n.initialized && n.memMap == s.memMap && n.log == s.log)
      && (s.initialized && s.useRef == 1 ==>
        n.useRef == 0 && !n.initialized && n.memMap == map[] && n.log != [] && n.log[|n.log| - 1] == Stopped(stopped))
  {
  }

  /** RegBuf of a buffer that is not registered: the caller gets the descriptor of the mapping if and only if the
      mapping succeeded and the last registration did; a failed mapping is told as it is, a refused registration as -1.
      */
  lemma RegBufIs(s: Slot, t: BufType, d: Desc, a: Answer)
    requires !d.OtherDesc? && (d.ImageDesc? ==> d.batch > 0) && d.ptr !in s.memMap
    ensures
      && var (n, fd) := RegSlot(s, Some(t), d, a);
      && var planes := d.ImageDesc? && d.nv12 && t == In;
      && var elements := if d.ImageDesc? && t != In && !s.dsp then d.batch else 1;
      && (a.fd < 0 ==> fd == a.fd && n == s)
      && (a.fd >= 0 ==>
        && fd == (if planes then (if a.second >= 1 then a.fd else -1) else if a.first >= elements then a.fd else -1)
        && |n.log| == |s.log| + 1 && n.useRef == s.useRef && n.initialized == s.initialized
        && n.memMap == (if fd < 0 then s.memMap else s.memMap[d.ptr := n.memMap[d.ptr]])
        && (fd >= 0 ==>
          && var info := n.memMap[d.ptr];
          && info.fd == a.fd && info.size == d.size && info.offset == d.offset && info.ptr == d.ptr
          && info.batch == (if d.ImageDesc? then d.batch else 1) && info.sizeOne == d.size / info.batch))
  {
    hide Calls;
  }

  /** Any other descriptor, or a buffer type outside the enumeration, is refused without a word to the library. */
  lemma RegBufRefuses(s: Slot, t: Option<BufType>, d: Desc, a: Answer)
    requires d.ImageDesc? ==> d.batch > 0
    requires t.None? || d.OtherDesc?
    ensures RegSlot(s, t, d, a) == (s, -1)
  {
  }

  /** DeregBuf of a registered buffer other than null erases its entry and asks two calls of a signal processor, and one
      for each element of the batch of the others. */
  lemma DeregBufIs(s: Slot, ptr: nat, accepts: Returns)
    ensures
      && var n := DeregSlot(s, ptr, accepts);
      && (ptr == 0 || ptr !in s.memMap ==> n == s)
      && (ptr != 0 && ptr in s.memMap ==>
        && n.memMap == (map p | p in s.memMap && p != ptr :: s.memMap[p])
        && n.log != [] && n.log[..|n.log| - 1] == s.log
        && var e := n.log[|n.log| - 1];
        && e.Deregistration? && e.ptr == ptr && |e.calls| == (if s.dsp then 2 else s.memMap[ptr].batch)
        && (forall i :: 0 <= i < |e.calls| ==> e.calls[i] == accepts(ptr, i))
        && n.useRef == s.useRef && n.initialized == s.initialized)
  {
  }
}
