/** The begin/end repair of systrace: a begin of Execute whose predecessor has not ended gets an end put before it. */
module TraceRepair {
  import opened QCDefs
  import opened Bytes
  import opened TraceFormat

  const EXECUTE: Bytes := Ascii("Execute")
  const FRAME_ID: Bytes := Ascii("frameId")

  /** The rows of the trace viewer: node, processor and title. */
  datatype Key = Key(name: Bytes, processor: Bytes, title: PyValue)

  function KeyOf(p: Parsed): Key { Key(p.name, p.processor, Get(p.args, FRAME_ID, Text(p.event))) }

  predicate Paired(p: Parsed) { p.kind == Begin || p.kind == End }

  predicate ExecuteBegin(p: Parsed) { p.kind == Begin && p.event == EXECUTE }

  datatype Emitted = Emitted(event: Parsed, inserted: bool)

  /** lastBEEvents. */
  type Cache = map<Key, Parsed>

  function Remember(cache: Cache, p: Parsed): Cache {
    if Paired(p) then cache[KeyOf(p) := p] else cache
  }

  /** The end that is missing before p. */
  function Missing(cache: Cache, p: Parsed): Option<Parsed> {
    if ExecuteBegin(p) && KeyOf(p) in cache && cache[KeyOf(p)].kind != End then Some(cache[KeyOf(p)].(kind := End))
    else None
  }

  /** What is appended for one record. */
  function Emit(cache: Cache, p: Parsed): seq<Emitted> {
    if Missing(cache, p).Some? then [Emitted(Missing(cache, p).value, true), Emitted(p, false)] else [Emitted(p, false)]
  }

  function CacheAfter(ps: seq<Parsed>): Cache {
    if ps == [] then map[] else Remember(CacheAfter(ps[..|ps| - 1]), ps[|ps| - 1])
  }

  function Repaired(ps: seq<Parsed>): seq<Emitted> {
    if ps == [] then [] else Repaired(ps[..|ps| - 1]) + Emit(CacheAfter(ps[..|ps| - 1]), ps[|ps| - 1])
  }

  // ---------------------------------------------------------------- what is promised

  function Events(es: seq<Emitted>): (r: seq<Parsed>)
    ensures |r| == |es| && forall i :: 0 <= i < |es| ==> r[i] == es[i].event
  {
    if es == [] then [] else Events(es[..|es| - 1]) + [es[|es| - 1].event]
  }

  function Originals(es: seq<Emitted>): seq<Parsed> {
    if es == [] then []
    else Originals(es[..|es| - 1]) + (if es[|es| - 1].inserted then [] else [es[|es| - 1].event])
  }

  /** The last begin or end of a row. */
  function LastOf(ps: seq<Parsed>, key: Key): Option<Parsed> {
    if ps == [] then None
    else if Paired(ps[|ps| - 1]) && KeyOf(ps[|ps| - 1]) == key then Some(ps[|ps| - 1])
    else LastOf(ps[..|ps| - 1], key)
  }

  predicate MayBegin(before: seq<Parsed>, p: Parsed) {
    ExecuteBegin(p) ==> LastOf(before, KeyOf(p)).None? || LastOf(before, KeyOf(p)).value.kind == End
  }

  /** Before every begin of Execute the row is empty or its last event is an end. */
  ghost predicate WellPaired(ps: seq<Parsed>) {
    forall i :: 0 <= i < |ps| ==> MayBegin(ps[..i], ps[i])
  }

  /** An inserted event ends the begin before it, and a begin of Execute in the same row follows at once. */
  ghost predicate Justified(es: seq<Emitted>, i: nat)
    requires i < |es|
  {
    es[i].inserted ==>
      && i + 1 < |es| && ExecuteBegin(es[i + 1].event) && !es[i + 1].inserted
      && var last := LastOf(Events(es[..i]), KeyOf(es[i + 1].event));
      && last.Some? && last.value.kind == Begin && es[i].event == last.value.(kind := End)
  }

  // ---------------------------------------------------------------- proofs

  lemma {:induction false} OriginalsAppend(es: seq<Emitted>, more: seq<Emitted>)
    ensures Originals(es + more) == Originals(es) + Originals(more)
    decreases |more|
  {
    if more == [] {
      assert es + more == es;
    } else {
      OriginalsAppend(es, more[..|more| - 1]);
      assert (es + more)[..|es + more| - 1] == es + more[..|more| - 1];
    }
  }

  lemma NoOriginals()
    ensures Originals([]) == []
  {
  }

  lemma OriginalsOfOne(e: Emitted)
    ensures Originals([e]) == if e.inserted then [] else [e.event]
  {
  }

  lemma OriginalsOfEmit(cache: Cache, p: Parsed)
    ensures Originals(Emit(cache, p)) == [p]
  {
    hide Originals;
    OriginalsOfOne(Emitted(p, false));
    if Missing(cache, p).Some? {
      var e := Emitted(Missing(cache, p).value, true);
      OriginalsOfOne(e);
      OriginalsAppend([e], [Emitted(p, false)]);
      assert [e] + [Emitted(p, false)] == Emit(cache, p);
    }
  }

  /** No event of the file is lost, repeated or moved. */
  lemma {:induction false} OrderKept(ps: seq<Parsed>)
    ensures Originals(Repaired(ps)) == ps
  {
    hide Emit, Originals, CacheAfter;
    if ps == [] {
      NoOriginals();
    } else {
      var front, p := ps[..|ps| - 1], ps[|ps| - 1];
      OrderKept(front);
      OriginalsAppend(Repaired(front), Emit(CacheAfter(front), p));
      OriginalsOfEmit(CacheAfter(front), p);
    }
  }

  function Lookup(cache: Cache, key: Key): Option<Parsed> {
    if key in cache then Some(cache[key]) else None
  }

  lemma EventsAppend(es: seq<Emitted>, e: Emitted)
    ensures Events(es + [e]) == Events(es) + [e.event]
    ensures Events(es + [e])[..|es|] == Events(es)
  {
    assert (es + [e])[..|es|] == es;
  }

  lemma LastAppend(ps: seq<Parsed>, p: Parsed)
    ensures forall key :: LastOf(ps + [p], key) == if Paired(p) && KeyOf(p) == key then Some(p) else LastOf(ps, key)
  {
    assert (ps + [p])[..|ps|] == ps;
  }

  ghost predicate Caches(cache: Cache, ps: seq<Parsed>) {
    && (forall key :: LastOf(ps, key) == Lookup(cache, key))
    && (forall key <- cache :: KeyOf(cache[key]) == key && Paired(cache[key]))
  }

  lemma NothingCached()
    ensures Caches(map[], [])
  {
  }

  lemma RememberCaches(cache: Cache, ps: seq<Parsed>, p: Parsed)
    requires Caches(cache, ps)
    ensures Caches(Remember(cache, p), ps + [p])
  {
    hide KeyOf, Paired;
    LastAppend(ps, p);
  }

  lemma MissingIffMayNotBegin(cache: Cache, ps: seq<Parsed>, p: Parsed)
    requires Caches(cache, ps)
    ensures Missing(cache, p).None? <==> MayBegin(ps, p)
  {
    hide KeyOf, LastOf, ExecuteBegin;
  }

  lemma WellPairedAppend(ps: seq<Parsed>, p: Parsed)
    ensures WellPaired(ps + [p]) <==> WellPaired(ps) && MayBegin(ps, p)
  {
    hide MayBegin;
    var all := ps + [p];
    assert all[..|ps|] == ps && all[|ps|] == p;
    forall i | 0 <= i < |ps| ensures all[..i] == ps[..i] && all[i] == ps[i] {
    }
    if WellPaired(all) {
      forall i | 0 <= i < |ps| ensures MayBegin(ps[..i], ps[i]) {
        assert MayBegin(all[..i], all[i]);
      }
    }
  }

  /** The end that is put in belongs to the row of p, and makes room for p. */
  lemma MissingEnds(cache: Cache, ps: seq<Parsed>, p: Parsed)
    requires Caches(cache, ps) && Missing(cache, p).Some?
    ensures
      && var m := Missing(cache, p).value;
      && MayBegin(ps, m) && MayBegin(ps + [m], p)
      && Remember(Remember(cache, m), p) == Remember(cache, p)
  {
    hide LastOf;
    var m := Missing(cache, p).value;
    assert KeyOf(m) == KeyOf(p);
    LastAppend(ps, m);
  }

  /** Caching what is emitted and caching what was read come to the same. */
  lemma EmitCaches(cache: Cache, out: seq<Emitted>, p: Parsed)
    requires Caches(cache, Events(out))
    ensures Caches(Remember(cache, p), Events(out + Emit(cache, p)))
    ensures WellPaired(Events(out)) ==> WellPaired(Events(out + Emit(cache, p)))
  {
    hide Caches, Remember, Missing, MayBegin, WellPaired, Events;
    if Missing(cache, p).Some? {
      var m := Missing(cache, p).value;
      var mid := out + [Emitted(m, true)];
      assert out + Emit(cache, p) == mid + [Emitted(p, false)];
      EventsAppend(out, Emitted(m, true));
      EventsAppend(mid, Emitted(p, false));
      RememberCaches(cache, Events(out), m);
      RememberCaches(Remember(cache, m), Events(mid), p);
      MissingEnds(cache, Events(out), p);
      WellPairedAppend(Events(out), m);
      WellPairedAppend(Events(mid), p);
    } else {
      EventsAppend(out, Emitted(p, false));
      RememberCaches(cache, Events(out), p);
      MissingIffMayNotBegin(cache, Events(out), p);
      WellPairedAppend(Events(out), p);
    }
  }

  /** The cache holds, for every row, the last begin or end, of those read and of those emitted. For every file, each
      begin of Execute in the emitted list follows an end, or nothing, in its row. */
  lemma {:induction false} RepairedIsWellPaired(ps: seq<Parsed>)
    ensures Caches(CacheAfter(ps), ps) && Caches(CacheAfter(ps), Events(Repaired(ps)))
    ensures WellPaired(Events(Repaired(ps)))
  {
    hide Caches, Emit, Remember;
    if ps == [] {
      NothingCached();
    } else {
      var front, p := ps[..|ps| - 1], ps[|ps| - 1];
      RepairedIsWellPaired(front);
      RememberCaches(CacheAfter(front), front, p);
      EmitCaches(CacheAfter(front), Repaired(front), p);
      assert ps == front + [p];
    }
  }

  lemma JustifiedBefore(out: seq<Emitted>, more: seq<Emitted>, i: nat)
    requires i < |out| && Justified(out, i)
    ensures Justified(out + more, i)
  {
    hide KeyOf, LastOf, Events, ExecuteBegin;
    assert (out + more)[..i] == out[..i];
  }

  lemma EmitJustified(cache: Cache, out: seq<Emitted>, p: Parsed, i: nat)
    requires Caches(cache, Events(out)) && |out| <= i < |out + Emit(cache, p)|
    ensures Justified(out + Emit(cache, p), i)
  {
    hide KeyOf, LastOf, Events, ExecuteBegin;
    var all := out + Emit(cache, p);
    if all[i].inserted {
      assert all[..i] == out;
    }
  }

  /** An end is inserted only where one is missing, and nowhere else. */
  lemma {:induction false} InsertionsJustified(ps: seq<Parsed>)
    ensures forall i :: 0 <= i < |Repaired(ps)| ==> Justified(Repaired(ps), i)
  {
    hide Justified, Emit, Caches;
    if ps != [] {
      var front, p := ps[..|ps| - 1], ps[|ps| - 1];
      var cache, out := CacheAfter(front), Repaired(front);
      InsertionsJustified(front);
      RepairedIsWellPaired(front);
      forall i | 0 <= i < |Repaired(ps)| ensures Justified(Repaired(ps), i) {
        if i < |out| {
          JustifiedBefore(out, Emit(cache, p), i);
        } else {
          EmitJustified(cache, out, p, i);
        }
      }
    }
  }

  /** Nothing is inserted exactly when the file is well paired already. */
  lemma {:induction false} RepairsOnlyIfNeeded(ps: seq<Parsed>)
    ensures |Repaired(ps)| >= |ps|
    ensures |Repaired(ps)| == |ps| <==> WellPaired(ps)
    ensures WellPaired(ps) ==> Events(Repaired(ps)) == ps
  {
    hide Caches, WellPaired, Missing, MayBegin, Events;
    if ps == [] {
      EmptyIsWellPaired();
    } else {
      var front, p := ps[..|ps| - 1], ps[|ps| - 1];
      RepairsOnlyIfNeeded(front);
      RepairedIsWellPaired(front);
      MissingIffMayNotBegin(CacheAfter(front), front, p);
      assert ps == front + [p];
      WellPairedAppend(front, p);
      EventsAppend(Repaired(front), Emitted(p, false));
    }
  }

  lemma EmptyIsWellPaired()
    ensures WellPaired([]) && Events([]) == []
  {
  }

  /** Repairing a repaired list changes nothing. */
  lemma RepairIsIdempotent(ps: seq<Parsed>)
    ensures Events(Repaired(Events(Repaired(ps)))) == Events(Repaired(ps))
  {
    RepairedIsWellPaired(ps);
    RepairsOnlyIfNeeded(Events(Repaired(ps)));
  }
}
