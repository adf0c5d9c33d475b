/** NodeTrace: builds a record in place and appends it to the trace file. */
module NodeTraceModule {
  import opened QCDefs
  import opened Bytes
  import opened TraceFormat
  import opened TraceProofs

  lemma {:induction false} ArgsBytesAppend(args: seq<Arg>, a: Arg)
    ensures ArgsBytes(args + [a]) == ArgsBytes(args) + ArgBytes(a)
  {
    hide ArgBytes;
    if args == [] {
      assert [a][1..] == [];
    } else {
      ArgsBytesAppend(args[1..], a);
      assert (args + [a])[1..] == args[1..] + [a];
    }
  }

  /** The record up to its arguments. */
  function Front(t: Tracer, c: Call): Bytes {
    HeaderBytes(t, c) + (t.name + (t.processor + c.name))
  }

  lemma RecordIsFrontAndArgs(t: Tracer, c: Call)
    ensures RecordOf(t, c) == Front(t, c) + ArgsBytes(c.args)
  {
    hide HeaderBytes, ArgsBytes;
    var h, args := HeaderBytes(t, c), ArgsBytes(c.args);
    assert t.name + (t.processor + (c.name + args)) == (t.name + (t.processor + c.name)) + args;
  }

  class NodeTrace {
    var name: Bytes
    var processor: Bytes
    var coreIdsMask: UInt32
    var record: Bytes
    /** s_pTraceFile: None while tracing is not enabled. */
    var file: Option<Bytes>

    constructor (name: Bytes)
      ensures this.name == name && processor == Ascii("default") && coreIdsMask == 0 && file == None
    {
      this.name := name;
      processor := Ascii("default");
      coreIdsMask := 0;
      record := [];
      file := None;
    }

    ghost function Abs(): Tracer
      reads this
    {
      Tracer(name, processor, coreIdsMask)
    }

    /** The part of Init behind the parsed configuration; an absent entry is None. Shifting by 32 or more is
        undefined. */
    method Configure(newName: Option<Bytes>, newProcessor: Option<Bytes>, coreIds: Option<seq<UInt32>>)
      requires coreIds.Some? ==> forall id <- coreIds.value :: id < 32
      modifies this
      ensures file == old(file)
      ensures file == None ==> Abs() == old(Abs())
      ensures file != None ==> name == (if newName.Some? then newName.value else old(name))
      ensures file != None ==> processor == (if newProcessor.Some? then newProcessor.value else old(processor))
      ensures
        forall j: nat :: file != None ==>
          (Bit(coreIdsMask, j) <==> Bit(old(coreIdsMask), j) || (coreIds.Some? && j in coreIds.value))
    {
      if file == None {
        return;
      }
      if newName.Some? {
        name := newName.value;
      }
      if newProcessor.Some? {
        processor := newProcessor.value;
      }
      if coreIds.Some? {
        var ids := coreIds.value;
        for k := 0 to |ids|
          invariant file == old(file)
          invariant name == if newName.Some? then newName.value else old(name)
          invariant processor == if newProcessor.Some? then newProcessor.value else old(processor)
          invariant forall j: nat :: Bit(coreIdsMask, j) <==> Bit(old(coreIdsMask), j) || j in ids[..k]
        {
          ghost var was := coreIdsMask;
          assert ids[k] in ids;
          SetBitFits(coreIdsMask, ids[k]);
          coreIdsMask := SetBit(coreIdsMask, ids[k]);
          forall j: nat ensures Bit(coreIdsMask, j) <==> j == ids[k] || Bit(was, j) {
            BitSetBit(was, ids[k], j);
          }
          assert ids[..k + 1] == ids[..k] + [ids[k]];
        }
        assert ids[..|ids|] == ids;
      }
    }

    /** m_record.resize: cuts the record, or fills it up with zeros. */
    method Resize(size: nat)
      modifies `record
      ensures |record| == size && (old(record) <= record || record <= old(record))
    {
      record := if size <= |record| then record[..size] else record + seq(size - |record|, _ => 0);
    }

    /** memcpy to &m_record.data()[offset], then offset += size; the copy may not leave the record. */
    method Copy(offset: nat, bytes: Bytes) returns (next: nat)
      requires offset + |bytes| <= |record|
      modifies `record
      ensures |record| == old(|record|) && next == offset + |bytes|
      ensures record[..next] == old(record[..offset]) + bytes
    {
      record := record[..offset] + bytes + record[offset + |bytes|..];
      next := offset + |bytes|;
    }

    method WriteHeader(c: Call) returns (offset: nat)
      modifies `record
      ensures offset == |record|
      ensures record == Front(Abs(), c)
    {
      hide HeaderBytes;
      var head := HeaderBytes(Tracer(name, processor, coreIdsMask), c);
      Resize(HEADER + |name| + |processor| + |c.name|);
      offset := Copy(0, head);
      offset := Copy(offset, name);
      offset := Copy(offset, processor);
      offset := Copy(offset, c.name);
      assert record[..offset] == record;
    }

    method WriteArg(offset: nat, a: Arg) returns (next: nat)
      requires offset == |record|
      modifies `record
      ensures next == |record| && record == old(record) + ArgBytes(a)
    {
      hide ArgHeaderBytes, RawBytes;
      var raw := RawBytes(a.value);
      Resize(offset + ARG_HEADER + |a.name| + |raw|);
      assert record[..offset] == old(record);
      next := Copy(offset, ArgHeaderBytes(a));
      next := Copy(next, a.name);
      next := Copy(next, raw);
      assert record[..next] == record;
    }

    method WriteArgs(start: nat, args: seq<Arg>) returns (offset: nat)
      requires start == |record|
      modifies `record
      ensures offset == |record| && record == old(record) + ArgsBytes(args)
    {
      hide ArgBytes;
      offset := start;
      for k := 0 to |args|
        invariant offset == |record| && record == old(record) + ArgsBytes(args[..k])
      {
        offset := WriteArg(offset, args[k]);
        assert args[..k + 1] == args[..k] + [args[k]];
        ArgsBytesAppend(args[..k], args[k]);
      }
      assert args[..|args|] == args;
    }

    /** Trace: every copy lies inside the record, and the file grows by exactly the bytes of the call. */
    method Trace(timestamp: UInt64, event: Bytes, kind: Kind, args: seq<Arg>)
      modifies `record, `file
      ensures
        var c := Call(timestamp, kind, event, args);
        file == if old(file) == None then None else Some(old(file).value + RecordOf(Abs(), c))
    {
      hide Front, ArgsBytes, RecordOf;
      if file != None {
        var call := Call(timestamp, kind, event, args);
        var offset := WriteHeader(call);
        offset := WriteArgs(offset, args);
        RecordIsFrontAndArgs(Abs(), call);
        assert record[..offset] == record;
        file := Some(file.value + record[..offset]);
      }
    }
  }
}
