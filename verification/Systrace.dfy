/** The loop of systrace: read a record, put in a missing end, remember the event. */
module Systrace {
  import opened QCDefs
  import opened Bytes
  import opened TraceFormat
  import opened TraceRepair

  lemma PrependStep(done: seq<Parsed>, p: Parsed, rest: ParseResult<seq<Parsed>>)
    ensures Prepend(done, Prepend([p], rest)) == Prepend(done + [p], rest)
  {
    if rest.Success? {
      assert done + ([p] + rest.value) == (done + [p]) + rest.value;
    }
  }

  method ToCoreIds(mask: UInt32) returns (ids: seq<nat>)
    ensures ids == CoreIdsBelow(mask, 32)
  {
    ids := [];
    for i := 0 to 32
      invariant ids == CoreIdsBelow(mask, i)
    {
      if Bit(mask, i) {
        ids := ids + [i];
      }
    }
  }

  /** All events of a file, repaired; or the error that ends the script. */
  method ReadTrace(record: Bytes) returns (r: ParseResult<seq<Emitted>>)
    ensures r.Success? <==> ParseAll(record, 0).Success?
    ensures r.Failure? ==> r.error == ParseAll(record, 0).error
    ensures r.Success? ==> r.value == Repaired(ParseAll(record, 0).value)
  {
    hide ParseEvent, Emit, Remember;
    var events: seq<Emitted> := [];
    var lastBEEvents: Cache := map[];
    var offset := 0;
    ghost var done: seq<Parsed> := [];
    ghost var whole := ParseAll(record, 0);
    assert whole.Success? ==> [] + whole.value == whole.value;
    while offset < |record|
      invariant whole == Prepend(done, ParseAll(record, offset))
      invariant events == Repaired(done) && lastBEEvents == CacheAfter(done)
      decreases |record| - offset
    {
      var one := ParseEvent(record, offset);
      if one.Failure? {
        return Failure(one.error);
      }
      var p := one.value.0;
      events := events + Emit(lastBEEvents, p);
      lastBEEvents := Remember(lastBEEvents, p);
      offset := one.value.1;
      PrependStep(done, p, ParseAll(record, offset));
      assert (done + [p])[..|done|] == done;
      done := done + [p];
    }
    assert done + [] == done;
    return Success(events);
  }
}
