/** The repair by rows of the trace viewer, with the row spelled out: node, processor and title. */
module TraceRows {
  import opened QCDefs
  import opened Bytes
  import opened TraceFormat
  import opened TraceRepair

  /** "Execute" and "frameId". */
  const EXECUTE_BYTES: Bytes := [69, 120, 101, 99, 117, 116, 101]
  const FRAME_ID_BYTES: Bytes := [102, 114, 97, 109, 101, 73, 100]

  /** The title of an event: its frameId argument, or else its name. */
  ghost predicate Titled(p: Parsed, title: PyValue) {
    if exists k :: 0 <= k < |p.args| && p.args[k].0 == FRAME_ID_BYTES then
      exists k :: 0 <= k < |p.args| && p.args[k] == (FRAME_ID_BYTES, title)
        && forall j :: 0 <= j < k ==> p.args[j].0 != FRAME_ID_BYTES
    else title == Text(p.event)
  }

  ghost predicate SameRow(p: Parsed, q: Parsed) {
    p.name == q.name && p.processor == q.processor && exists title :: Titled(p, title) && Titled(q, title)
  }

  /** A begin or end in the row of p. */
  ghost predicate PairedWith(e: Parsed, p: Parsed) {
    e.kind in {Begin, End} && SameRow(e, p)
  }

  predicate BeginsExecute(p: Parsed) { p.kind == Begin && p.event == EXECUTE_BYTES }

  /** Event i is the last begin or end of the row of p among the first n. */
  ghost predicate LastInRow(es: seq<Parsed>, n: int, i: int, p: Parsed) {
    0 <= i < n <= |es| && PairedWith(es[i], p) && forall m :: i < m < n ==> !PairedWith(es[m], p)
  }

  /** Whatever begin or end came last in the row of a begin of Execute is an end. */
  ghost predicate RowsPaired(es: seq<Parsed>) {
    forall i, j :: 0 <= i < j < |es| && BeginsExecute(es[j]) && LastInRow(es, j, i, es[j]) ==> es[i].kind == End
  }

  // ---------------------------------------------------------------- the row of an event

  lemma {:induction false} GetIs(d: Dict, key: Bytes, otherwise: PyValue)
    ensures (forall k :: 0 <= k < |d| ==> d[k].0 != key) ==> Get(d, key, otherwise) == otherwise
    ensures (exists k :: 0 <= k < |d| && d[k].0 == key) ==>
      exists k :: 0 <= k < |d| && d[k] == (key, Get(d, key, otherwise)) && forall j :: 0 <= j < k ==> d[j].0 != key
  {
    if d != [] && d[0].0 != key {
      GetIs(d[1..], key, otherwise);
      if k :| (0 <= k < |d[1..]| && d[1..][k] == (key, Get(d[1..], key, otherwise))
               && forall j :: 0 <= j < k ==> d[1..][j].0 != key)
      {
        assert d[k + 1] == (key, Get(d, key, otherwise));
        assert forall j :: 0 <= j < k + 1 ==> d[j].0 != key by {
          forall j | 0 < j < k + 1 ensures d[j].0 != key {
            assert d[1..][j - 1].0 != key;
          }
        }
      }
      if k :| 0 <= k < |d| && d[k].0 == key {
        assert d[1..][k - 1].0 == key;
      }
    } else if d != [] {
      assert d[0] == (key, Get(d, key, otherwise));
    }
  }

  lemma Letters()
    ensures EXECUTE == EXECUTE_BYTES && FRAME_ID == FRAME_ID_BYTES
  {
    AsciiOf("Execute", EXECUTE_BYTES);
    AsciiOf("frameId", FRAME_ID_BYTES);
  }

  lemma {:induction false} AsciiOf(s: string, b: Bytes)
    requires |s| == |b| && forall i :: 0 <= i < |s| ==> s[i] as int == b[i]
    ensures Ascii(s) == b
  {
    if s != [] {
      AsciiOf(s[1..], b[1..]);
    }
  }

  lemma TitleIs(p: Parsed, title: PyValue)
    ensures Titled(p, title) <==> title == Get(p.args, FRAME_ID, Text(p.event))
  {
    Letters();
    GetIs(p.args, FRAME_ID, Text(p.event));
  }

  /** The key of the cache tells rows apart, and nothing else. */
  lemma KeyIsRow(p: Parsed, q: Parsed)
    ensures KeyOf(p) == KeyOf(q) <==> SameRow(p, q)
  {
    hide Titled;
    var title := Get(p.args, FRAME_ID, Text(p.event));
    TitleIs(p, title);
    TitleIs(q, title);
    if t :| Titled(p, t) && Titled(q, t) {
      TitleIs(p, t);
      TitleIs(q, t);
    }
  }

  lemma PairedIs(e: Parsed, p: Parsed)
    ensures PairedWith(e, p) <==> Paired(e) && KeyOf(e) == KeyOf(p)
    ensures ExecuteBegin(p) <==> BeginsExecute(p)
  {
    hide SameRow, KeyOf;
    KeyIsRow(e, p);
    Letters();
  }

  lemma LastUnfold(es: seq<Parsed>, n: nat, p: Parsed)
    requires 0 < n <= |es|
    ensures LastOf(es[..n], KeyOf(p)) ==
      if PairedWith(es[n - 1], p) then Some(es[n - 1]) else LastOf(es[..n - 1], KeyOf(p))
  {
    hide PairedWith, KeyOf;
    assert es[..n][..n - 1] == es[..n - 1];
    PairedIs(es[n - 1], p);
  }

  lemma LastExtends(es: seq<Parsed>, n: nat, i: int, p: Parsed)
    requires 0 < n <= |es| && LastInRow(es, n - 1, i, p) && !PairedWith(es[n - 1], p)
    ensures LastInRow(es, n, i, p)
  {
  }

  lemma LastHere(es: seq<Parsed>, n: nat, p: Parsed)
    requires 0 < n <= |es| && PairedWith(es[n - 1], p)
    ensures LastInRow(es, n, n - 1, p)
  {
  }

  /** The last begin or end of a row, found where it stands. */
  lemma {:induction false} LastIs(es: seq<Parsed>, n: nat, p: Parsed)
    requires n <= |es|
    ensures var last := LastOf(es[..n], KeyOf(p));
      && (last.None? <==> forall m :: 0 <= m < n ==> !PairedWith(es[m], p))
      && (last.Some? ==> exists i :: 0 <= i < n && LastInRow(es, n, i, p) && es[i] == last.value)
    decreases n
  {
    if n > 0 {
      LastIs(es, n - 1, p);
      LastUnfold(es, n, p);
      hide PairedWith, KeyOf, LastOf, LastInRow;
      if PairedWith(es[n - 1], p) {
        LastHere(es, n, p);
      } else if LastOf(es[..n - 1], KeyOf(p)).Some? {
        var i :| LastInRow(es, n - 1, i, p) && 0 <= i < n - 1 && es[i] == LastOf(es[..n - 1], KeyOf(p)).value;
        LastExtends(es, n, i, p);
      }
    }
  }

  lemma NoLast(es: seq<Parsed>, n: nat, p: Parsed)
    requires n <= |es| && forall m :: 0 <= m < n ==> !PairedWith(es[m], p)
    ensures forall i :: !LastInRow(es, n, i, p)
  {
  }

  lemma {:induction false} PairedKind(e: Parsed, p: Parsed, es: seq<Parsed>)
    requires LastOf(es, KeyOf(p)) == Some(e)
    ensures e.kind == Begin || e.kind == End
  {
    if es != [] && !(Paired(es[|es| - 1]) && KeyOf(es[|es| - 1]) == KeyOf(p)) {
      PairedKind(e, p, es[..|es| - 1]);
    }
  }

  lemma LastIsOne(es: seq<Parsed>, n: int, i: int, k: int, p: Parsed)
    requires LastInRow(es, n, i, p) && LastInRow(es, n, k, p)
    ensures i == k
  {
  }

  lemma MayBeginIs(es: seq<Parsed>, j: nat)
    requires j < |es|
    ensures MayBegin(es[..j], es[j]) <==>
      forall i :: BeginsExecute(es[j]) && 0 <= i < j && LastInRow(es, j, i, es[j]) ==> es[i].kind == End
  {
    hide KeyOf, LastOf, PairedWith;
    PairedIs(es[j], es[j]);
    LastIs(es, j, es[j]);
    var last := LastOf(es[..j], KeyOf(es[j]));
    if last.Some? {
      var k :| LastInRow(es, j, k, es[j]) && es[k] == last.value;
      forall i | LastInRow(es, j, i, es[j]) ensures i == k {
        LastIsOne(es, j, i, k, es[j]);
      }
      PairedKind(last.value, es[j], es[..j]);
    } else {
      NoLast(es, j, es[j]);
    }
  }

  lemma WellPairedIs(es: seq<Parsed>)
    ensures WellPaired(es) <==> RowsPaired(es)
  {
    hide MayBegin, LastInRow;
    forall j | 0 <= j < |es|
      ensures MayBegin(es[..j], es[j]) <==>
        forall i :: BeginsExecute(es[j]) && 0 <= i < j && LastInRow(es, j, i, es[j]) ==> es[i].kind == End
    {
      MayBeginIs(es, j);
    }
  }

  // ---------------------------------------------------------------- the repair by rows

  /** In the list that is emitted, every begin of Execute follows an end, or nothing, in its row. Nothing is inserted if
      and only if that holds of the file. */
  lemma RowsAreRepaired(ps: seq<Parsed>)
    ensures RowsPaired(Events(Repaired(ps)))
    ensures |Repaired(ps)| == |ps| <==> RowsPaired(ps)
  {
    RepairedIsWellPaired(ps);
    RepairsOnlyIfNeeded(ps);
    WellPairedIs(Events(Repaired(ps)));
    WellPairedIs(ps);
  }

  /** Each inserted event is the end of the begin that came last in the row of the begin of Execute that follows at
      once. */
  lemma InsertedInRow(ps: seq<Parsed>, i: nat)
    requires i < |Repaired(ps)| && Repaired(ps)[i].inserted
    ensures var es := Events(Repaired(ps));
      && i + 1 < |es| && BeginsExecute(es[i + 1])
      && exists k :: LastInRow(es, i, k, es[i + 1]) && es[k].kind == Begin && es[i] == es[k].(kind := End)
  {
    hide LastOf, KeyOf, PairedWith;
    InsertionsJustified(ps);
    var out := Repaired(ps);
    assert Justified(out, i);
    PairedIs(out[i + 1].event, out[i + 1].event);
    var es := Events(out);
    EventsPrefix(out, i);
    LastIs(es, i, es[i + 1]);
  }

  lemma {:induction false} EventsPrefix(es: seq<Emitted>, n: nat)
    requires n <= |es|
    ensures Events(es[..n]) == Events(es)[..n]
  {
  }

  // ---------------------------------------------------------------- one row alone

  /** What belongs to the row of q. */
  ghost function Only(ps: seq<Parsed>, q: Parsed): seq<Parsed> {
    if ps == [] then []
    else Only(ps[..|ps| - 1], q) + if SameRow(ps[|ps| - 1], q) then [ps[|ps| - 1]] else []
  }

  ghost function OnlyEmitted(es: seq<Emitted>, q: Parsed): seq<Emitted> {
    if es == [] then []
    else OnlyEmitted(es[..|es| - 1], q) + if SameRow(es[|es| - 1].event, q) then [es[|es| - 1]] else []
  }

  lemma {:induction false} OnlyAppend(es: seq<Emitted>, more: seq<Emitted>, q: Parsed)
    ensures OnlyEmitted(es + more, q) == OnlyEmitted(es, q) + OnlyEmitted(more, q)
    decreases |more|
  {
    if more == [] {
      assert es + more == es;
    } else {
      OnlyAppend(es, more[..|more| - 1], q);
      assert (es + more)[..|es + more| - 1] == es + more[..|more| - 1];
    }
  }

  /** What is emitted for p belongs to the row of p. */
  lemma EmitInRow(cache: Cache, ps: seq<Parsed>, p: Parsed, q: Parsed)
    requires Caches(cache, ps)
    ensures OnlyEmitted(Emit(cache, p), q) == if SameRow(p, q) then Emit(cache, p) else []
  {
    hide KeyOf, SameRow, LastOf;
    KeyIsRow(p, q);
    OneEmitted(Emitted(p, false), q);
    if Missing(cache, p).Some? {
      var m := Missing(cache, p).value;
      EndInRow(cache[KeyOf(p)]);
      KeyIsRow(m, q);
      OneEmitted(Emitted(m, true), q);
      OnlyAppend([Emitted(m, true)], [Emitted(p, false)], q);
      assert Emit(cache, p) == [Emitted(m, true)] + [Emitted(p, false)];
    }
  }

  lemma EndInRow(p: Parsed)
    ensures KeyOf(p.(kind := End)) == KeyOf(p)
  {
  }

  lemma OneEmitted(e: Emitted, q: Parsed)
    ensures OnlyEmitted([e], q) == if SameRow(e.event, q) then [e] else []
    ensures OnlyEmitted([], q) == []
  {
    assert [e][..0] == [];
  }

  lemma {:induction false} LastOnly(ps: seq<Parsed>, q: Parsed)
    ensures LastOf(Only(ps, q), KeyOf(q)) == LastOf(ps, KeyOf(q))
  {
    hide KeyOf, SameRow;
    if ps != [] {
      var front, p := ps[..|ps| - 1], ps[|ps| - 1];
      LastOnly(front, q);
      KeyIsRow(p, q);
      LastAppend(Only(front, q), p);
      LastAppend(front, p);
      assert ps == front + [p];
      assert Only(ps, q) == if SameRow(p, q) then Only(front, q) + [p] else Only(front, q);
      hide LastOf;
    }
  }

  /** Rows do not touch each other: keeping one row of a repaired file is repairing that row's records alone. */
  lemma {:induction false} RowByRow(ps: seq<Parsed>, q: Parsed)
    ensures OnlyEmitted(Repaired(ps), q) == Repaired(Only(ps, q))
  {
    hide KeyOf, SameRow, Emit, CacheAfter, Caches;
    if ps != [] {
      var front, p := ps[..|ps| - 1], ps[|ps| - 1];
      RowByRow(front, q);
      RepairedIsWellPaired(front);
      RepairedIsWellPaired(Only(front, q));
      OnlyAppend(Repaired(front), Emit(CacheAfter(front), p), q);
      EmitInRow(CacheAfter(front), front, p, q);
      if SameRow(p, q) {
        LastOnly(front, q);
        SameMissing(CacheAfter(front), front, CacheAfter(Only(front, q)), Only(front, q), p, q);
        assert Only(ps, q) == Only(front, q) + [p];
        assert Only(ps, q)[..|Only(ps, q)| - 1] == Only(front, q);
      } else {
        assert Only(ps, q) == Only(front, q);
      }
    }
  }

  lemma SameMissing(a: Cache, ps: seq<Parsed>, b: Cache, qs: seq<Parsed>, p: Parsed, q: Parsed)
    requires Caches(a, ps) && Caches(b, qs) && SameRow(p, q) && LastOf(ps, KeyOf(q)) == LastOf(qs, KeyOf(q))
    ensures Emit(a, p) == Emit(b, p)
  {
    hide KeyOf, SameRow, LastOf;
    KeyIsRow(p, q);
    assert Lookup(a, KeyOf(q)) == Lookup(b, KeyOf(q));
  }
}
