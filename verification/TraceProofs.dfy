/** Round trip of the trace: what NodeTrace writes is what the parser reads. */
module TraceProofs {
  import opened QCDefs
  import opened Bytes
  import opened TraceFormat

  // ---------------------------------------------------------------- core ids

  lemma {:induction false} BitSetBit(mask: nat, i: nat, j: nat)
    ensures Bit(SetBit(mask, i), j) <==> j == i || Bit(mask, j)
  {
    if i > 0 && j > 0 {
      BitSetBit(mask / 2, i - 1, j - 1);
    }
  }

  function Pow2(n: nat): (r: nat)
    ensures r > 0
  {
    if n == 0 then 1 else 2 * Pow2(n - 1)
  }

  lemma {:induction false} SetBitBelow(mask: nat, i: nat, n: nat)
    requires i < n && mask < Pow2(n)
    ensures SetBit(mask, i) < Pow2(n)
  {
    if i > 0 {
      SetBitBelow(mask / 2, i - 1, n - 1);
    }
  }

  /** An identifier below 32 keeps the mask within 32 bits. */
  lemma SetBitFits(mask: UInt32, i: nat)
    requires i < 32
    ensures SetBit(mask, i) < U32
  {
    assert Pow2(8) == 0x100 && Pow2(16) == 0x1_0000;
    assert Pow2(24) == 0x100_0000 && Pow2(32) == U32;
    SetBitBelow(mask, i, 32);
  }

  lemma {:induction false} NoBits(mask: nat, j: nat)
    requires mask == 0
    ensures !Bit(mask, j)
  {
    if j > 0 {
      NoBits(mask, j - 1);
    }
  }

  /** toCoreIds lists exactly the bits that are set, in increasing order. */
  lemma {:induction false} CoreIdsAre(mask: nat, n: nat)
    ensures forall i: nat :: i in CoreIdsBelow(mask, n) <==> i < n && Bit(mask, i)
    ensures forall a, b :: 0 <= a < b < |CoreIdsBelow(mask, n)| ==> CoreIdsBelow(mask, n)[a] < CoreIdsBelow(mask, n)[b]
  {
    if n > 0 {
      CoreIdsAre(mask, n - 1);
      var below := CoreIdsBelow(mask, n - 1);
      forall a | 0 <= a < |below| ensures below[a] < n - 1 {
        assert below[a] in below;
      }
    }
  }

  // ---------------------------------------------------------------- values

  /** The Python value of a traced one. */
  function Python(v: Value): PyValue {
    match v
    case Str(s) => Text(s)
    case Double(x) => Real(x, 8)
    case Float(x) => Real(x, 4)
    case Uint64(x) => Int(x)
    case Uint32(x) => Int(x)
    case Uint16(x) => Int(x)
    case Uint8(x) => Int(x)
    case Sint64(x) => Int(x)
    case Sint32(x) => Int(x)
    case Sint16(x) => Int(x)
    case Sint8(x) => Int(x)
  }

  lemma ValueRoundTrip(v: Value)
    ensures ReadValue(TypeCode(v), RawBytes(v)) == Success(Python(v))
  {
    if !v.Str? {
      Widths();
      var raw := RawBytes(v);
      assert raw[..SizeOf(TypeCode(v))] == raw;
      match v {
        case Double(x) => DecodeEncode(x, 8);
        case Float(x) => DecodeEncode(x, 4);
        case Uint64(x) => DecodeEncode(x, 8);
        case Uint32(x) => DecodeEncode(x, 4);
        case Uint16(x) => DecodeEncode(x, 2);
        case Uint8(x) => DecodeEncode(x, 1);
        case Sint64(x) => DecodeEncode(Unsigned(x, 8), 8); SignedUnsigned(x, 8);
        case Sint32(x) => DecodeEncode(Unsigned(x, 4), 4); SignedUnsigned(x, 4);
        case Sint16(x) => DecodeEncode(Unsigned(x, 2), 2); SignedUnsigned(x, 2);
        case Sint8(x) => DecodeEncode(Unsigned(x, 1), 1); SignedUnsigned(x, 1);
      }
    }
  }

  // ---------------------------------------------------------------- records

  function PutAll(d: Dict, args: seq<Arg>): Dict
    decreases args
  {
    if args == [] then d else PutAll(Put(d, args[0].name, Python(args[0].value)), args[1..])
  }

  /** What the parser is to find for a call of Trace. */
  function Expected(t: Tracer, c: Call): Parsed {
    Parsed(c.timestamp, c.kind, t.name, Upper(t.processor), c.name,
           PutAll(BaseArgs(c.timestamp, t.coreIdsMask), c.args))
  }

  function ExpectedAll(log: seq<(Tracer, Call)>): seq<Parsed> {
    if log == [] then [] else [Expected(log[0].0, log[0].1)] + ExpectedAll(log[1..])
  }

  /** Every length fits the 32-bit field it is cast to. */
  ghost predicate ArgFits(a: Arg) { |a.name| < U32 && |RawBytes(a.value)| < U32 }

  ghost predicate Fits(t: Tracer, c: Call) {
    && |t.name| < U32 && |t.processor| < U32 && |c.name| < U32 && |c.args| < U32
    && forall a <- c.args :: ArgFits(a)
  }

  lemma ArgHeaderIs(s: Bytes, offset: nat, a: Arg)
    requires At(s, offset, ArgHeaderBytes(a)) && ArgFits(a)
    ensures Field(s, offset, 4) == TypeCode(a.value)
    ensures Field(s, offset + 4, 4) == |a.name| && Field(s, offset + 8, 4) == |RawBytes(a.value)|
  {
    var ws: seq<UInt32> := [TypeCode(a.value), Wrap32(|a.name|), Wrap32(|RawBytes(a.value)|)];
    WordIs(s, offset, ws, 0);
    WordIs(s, offset, ws, 1);
    WordIs(s, offset, ws, 2);
  }

  lemma ArgRoundTrip(s: Bytes, offset: nat, a: Arg)
    requires At(s, offset, ArgBytes(a)) && ArgFits(a)
    ensures Field(s, offset + 4, 4) == |a.name| && Field(s, offset + 8, 4) == |RawBytes(a.value)|
    ensures offset + |ArgBytes(a)| == offset + ARG_HEADER + |a.name| + |RawBytes(a.value)| <= |s|
    ensures Slice(s, offset + ARG_HEADER, offset + ARG_HEADER + |a.name|) == a.name
    ensures
      && var valueAt := offset + ARG_HEADER + |a.name|;
      && ReadValue(Field(s, offset, 4), Slice(s, valueAt, valueAt + |RawBytes(a.value)|)) == Success(Python(a.value))
  {
    var raw := RawBytes(a.value);
    AtThree(s, offset, ArgHeaderBytes(a), a.name, raw);
    ArgHeaderIs(s, offset, a);
    AtSlice(s, offset + ARG_HEADER, a.name);
    AtSlice(s, offset + ARG_HEADER + |a.name|, raw);
    ValueRoundTrip(a.value);
  }

  lemma NoArgs(s: Bytes, offset: nat, d: Dict)
    ensures ArgsBytes([]) == [] && PutAll(d, []) == d && ParseArgs(s, offset, 0, d) == Success((d, offset))
  {
  }

  /** The first argument is parsed, and the others lie behind it. */
  lemma ArgStep(s: Bytes, offset: nat, args: seq<Arg>, d: Dict)
    requires args != [] && At(s, offset, ArgsBytes(args)) && ArgFits(args[0])
    ensures
      && var next, p := offset + |ArgBytes(args[0])|, Put(d, args[0].name, Python(args[0].value));
      && At(s, next, ArgsBytes(args[1..]))
      && ParseArgs(s, offset, |args|, d) == ParseArgs(s, next, |args| - 1, p)
      && PutAll(d, args) == PutAll(p, args[1..])
      && |ArgsBytes(args)| == |ArgBytes(args[0])| + |ArgsBytes(args[1..])|
  {
    hide ArgBytes, At, Put, ReadValue, ArgFits, Python, Field, Slice;
    AtParts(s, offset, ArgBytes(args[0]), ArgsBytes(args[1..]));
    ArgRoundTrip(s, offset, args[0]);
  }

  lemma {:induction false} ArgsRoundTrip(s: Bytes, offset: nat, args: seq<Arg>, d: Dict)
    requires At(s, offset, ArgsBytes(args)) && forall a <- args :: ArgFits(a)
    ensures ParseArgs(s, offset, |args|, d) == Success((PutAll(d, args), offset + |ArgsBytes(args)|))
    decreases args
  {
    hide ArgBytes, ArgsBytes, At, Put, PutAll, ParseArgs, ArgFits, Python;
    if args == [] {
      NoArgs(s, offset, d);
    } else {
      var a := args[0];
      ArgStep(s, offset, args, d);
      ArgsRoundTrip(s, offset + |ArgBytes(a)|, args[1..], Put(d, a.name, Python(a.value)));
    }
  }

  lemma HeaderIs(s: Bytes, offset: nat, t: Tracer, c: Call)
    requires At(s, offset, HeaderBytes(t, c)) && Fits(t, c)
    ensures Field(s, offset, 8) == c.timestamp && Field(s, offset + 8, 4) == KindCode(c.kind)
    ensures Field(s, offset + 12, 4) == |t.name| && Field(s, offset + 16, 4) == |t.processor|
    ensures Field(s, offset + 20, 4) == |c.name| && Field(s, offset + 24, 4) == t.coreIdsMask
    ensures Field(s, offset + 28, 4) == |c.args|
  {
    hide At, Field, Encode, Words;
    var ws := HeaderWords(t, c);
    AtParts(s, offset, Encode(c.timestamp, 8), Words(ws));
    Widths();
    FieldIs(s, offset, c.timestamp, 8);
    WordIs(s, offset + 8, ws, 0);
    WordIs(s, offset + 8, ws, 1);
    WordIs(s, offset + 8, ws, 2);
    WordIs(s, offset + 8, ws, 3);
    WordIs(s, offset + 8, ws, 4);
    WordIs(s, offset + 8, ws, 5);
  }

  /** Round trip of one record, wherever it lies in a file; the parser stops right behind it. */
  lemma RecordRoundTrip(s: Bytes, offset: nat, t: Tracer, c: Call)
    requires At(s, offset, RecordOf(t, c)) && Fits(t, c)
    ensures ParseEvent(s, offset) == Success((Expected(t, c), offset + |RecordOf(t, c)|))
  {
    hide HeaderBytes, At, ArgsBytes, BaseArgs, ParseArgs, Upper;
    var args := ArgsBytes(c.args);
    AtThree(s, offset, HeaderBytes(t, c), t.name, t.processor + (c.name + args));
    AtThree(s, offset + HEADER + |t.name|, t.processor, c.name, args);
    HeaderIs(s, offset, t, c);
    AtSlice(s, offset + HEADER, t.name);
    AtSlice(s, offset + HEADER + |t.name|, t.processor);
    AtSlice(s, offset + HEADER + |t.name| + |t.processor|, c.name);
    var argsAt := offset + HEADER + |t.name| + |t.processor| + |c.name|;
    ArgsRoundTrip(s, argsAt, c.args, BaseArgs(c.timestamp, t.coreIdsMask));
  }

  lemma {:induction false} LogRoundTrip(s: Bytes, offset: nat, log: seq<(Tracer, Call)>)
    requires At(s, offset, FileOf(log)) && offset + |FileOf(log)| == |s|
    requires forall e <- log :: Fits(e.0, e.1)
    ensures ParseAll(s, offset) == Success(ExpectedAll(log))
    decreases log
  {
    hide RecordOf, ParseEvent, ParseAll, Expected, At, Fits;
    if log == [] {
      NothingToParse(s);
    } else {
      var record := RecordOf(log[0].0, log[0].1);
      AtParts(s, offset, record, FileOf(log[1..]));
      RecordRoundTrip(s, offset, log[0].0, log[0].1);
      LogRoundTrip(s, offset + |record|, log[1..]);
      ParseStep(s, offset, Expected(log[0].0, log[0].1), offset + |record|);
    }
  }

  lemma NothingToParse(s: Bytes)
    ensures ParseAll(s, |s|) == Success([])
  {
  }

  lemma ParseStep(s: Bytes, offset: nat, p: Parsed, next: nat)
    requires offset < |s| && ParseEvent(s, offset) == Success((p, next))
    ensures ParseAll(s, offset) == Prepend([p], ParseAll(s, next))
  {
    hide ParseEvent, Prepend;
  }

  /** Round trip of a whole trace: every call comes back once, in order, and the file is consumed exactly. */
  lemma FileRoundTrip(log: seq<(Tracer, Call)>)
    requires forall e <- log :: Fits(e.0, e.1)
    ensures ParseAll(FileOf(log), 0) == Success(ExpectedAll(log))
  {
    assert FileOf(log)[0..0 + |FileOf(log)|] == FileOf(log);
    LogRoundTrip(FileOf(log), 0, log);
  }

  // ---------------------------------------------------------------- argument names

  function Keys(d: Dict): set<Bytes> { set e <- d :: e.0 }

  function Plain(args: seq<Arg>): Dict {
    if args == [] then [] else [(args[0].name, Python(args[0].value))] + Plain(args[1..])
  }

  /** No name occurs twice, and none is a key already. */
  ghost predicate Distinct(keys: set<Bytes>, args: seq<Arg>)
    decreases args
  {
    args == [] || (args[0].name !in keys && Distinct(keys + {args[0].name}, args[1..]))
  }

  lemma {:induction false} PutIs(d: Dict, key: Bytes, value: PyValue)
    ensures key !in Keys(d) ==> Put(d, key, value) == d + [(key, value)]
    ensures key in Keys(d) ==> |Put(d, key, value)| == |d|
    ensures Keys(Put(d, key, value)) == Keys(d) + {key}
    ensures forall k, o :: Get(Put(d, key, value), k, o) == if k == key then value else Get(d, k, o)
  {
    if d != [] {
      assert Keys(d) == {d[0].0} + Keys(d[1..]);
      if d[0].0 == key {
        var p := Put(d, key, value);
        assert p[1..] == d[1..];
        assert Keys(p) == {key} + Keys(p[1..]);
      } else {
        PutIs(d[1..], key, value);
        var p := Put(d, key, value);
        assert p[1..] == Put(d[1..], key, value);
        assert Keys(p) == {d[0].0} + Keys(p[1..]);
      }
    }
  }

  lemma {:induction false} PutAllSize(d: Dict, args: seq<Arg>)
    ensures |PutAll(d, args)| <= |d| + |args|
    decreases args
  {
    if args != [] {
      PutIs(d, args[0].name, Python(args[0].value));
      PutAllSize(Put(d, args[0].name, Python(args[0].value)), args[1..]);
    }
  }

  /** The dictionary is the keys of the record's own followed by the arguments, exactly when the names are distinct. */
  lemma {:induction false} ArgsKept(d: Dict, args: seq<Arg>)
    ensures PutAll(d, args) == d + Plain(args) <==> Distinct(Keys(d), args)
    decreases args
  {
    if args != [] {
      var a := args[0];
      var p := Put(d, a.name, Python(a.value));
      PutIs(d, a.name, Python(a.value));
      if a.name in Keys(d) {
        PutAllSize(p, args[1..]);
        PlainSize(args);
      } else {
        ArgsKept(p, args[1..]);
        assert d + Plain(args) == p + Plain(args[1..]);
      }
    }
  }

  lemma {:induction false} PlainSize(args: seq<Arg>)
    ensures |Plain(args)| == |args|
  {
    if args != [] {
      PlainSize(args[1..]);
    }
  }

  /** The parsed arguments of a call are timestamp, core ids and its own arguments, exactly when their names do not
      clash. */
  lemma ExpectedArgs(t: Tracer, c: Call)
    ensures
      && var base := BaseArgs(c.timestamp, t.coreIdsMask);
      && Expected(t, c).args == base + Plain(c.args) <==> Distinct(Keys(base), c.args)
    ensures Keys(BaseArgs(c.timestamp, t.coreIdsMask)) ==
      if t.coreIdsMask == 0 then {TIMESTAMP} else {TIMESTAMP, CORE_IDS}
  {
    hide PutAll, Distinct, Plain, CoreIdsBelow, Upper;
    var base := BaseArgs(c.timestamp, t.coreIdsMask);
    ArgsKept(base, c.args);
    assert base[0].0 == TIMESTAMP;
    if t.coreIdsMask != 0 {
      assert base[1].0 == CORE_IDS;
    }
  }

  // ---------------------------------------------------------------- files that do not parse

  /** Bytes that a value of this type takes: none is asked of a text or of an unknown type. */
  function Needed(code: nat): nat {
    if code in {1, 3, 7} then 8 else if code in {2, 4, 8} then 4 else if code in {5, 9} then 2
    else if code in {6, 10} then 1 else 0
  }

  /** A value is read from as many bytes as its type takes, and fails when there are fewer; a text and a value of
      unknown type are all of the bytes. */
  lemma ValueIs(code: nat, raw: Bytes)
    ensures ReadValue(code, raw) == Failure(ValueTooShort) <==> |raw| < Needed(code)
    ensures |raw| >= Needed(code) ==>
      && ReadValue(code, raw).Success?
      && var v := ReadValue(code, raw).value;
      && (code == 0 ==> v == Text(raw)) && (code > 10 ==> v == Raw(raw))
      && (code in {1, 2} ==> v == Real(Decode(raw[..Needed(code)]), Needed(code)))
      && (3 <= code <= 6 ==> v == Int(Decode(raw[..Needed(code)])))
      && (7 <= code <= 10 ==> v == Int(Signed(Decode(raw[..Needed(code)]), Needed(code))))
  {
  }

  /** A record fails for a header that is cut off, for a kind that is not in the table, or with its arguments. */
  lemma RecordFails(s: Bytes, offset: nat)
    ensures offset + 32 > |s| ==> ParseEvent(s, offset) == Failure(Truncated)
    ensures offset + 32 <= |s| && Field(s, offset + 8, 4) > 3 ==> ParseEvent(s, offset) == Failure(UnknownKind)
    ensures offset + 32 <= |s| && Field(s, offset + 8, 4) <= 3 ==>
      && var texts := Field(s, offset + 12, 4) + Field(s, offset + 16, 4) + Field(s, offset + 20, 4);
      && var base := BaseArgs(Field(s, offset, 8), Field(s, offset + 24, 4));
      && var args := ParseArgs(s, offset + 32 + texts, Field(s, offset + 28, 4), base);
      && (ParseEvent(s, offset).Failure? <==> args.Failure?)
      && (args.Failure? ==> ParseEvent(s, offset) == Failure(args.error))
  {
    hide Field, ParseArgs, BaseArgs;
  }

  /** The arguments fail with the first of them whose header is cut off or whose value is too short. */
  lemma ArgumentFails(s: Bytes, offset: nat, n: nat, d: Dict)
    requires n > 0
    ensures offset + 12 > |s| ==> ParseArgs(s, offset, n, d) == Failure(Truncated)
    ensures offset + 12 <= |s| ==>
      && var valueAt := offset + 12 + Field(s, offset + 4, 4);
      && var next := valueAt + Field(s, offset + 8, 4);
      && var value := ReadValue(Field(s, offset, 4), Slice(s, valueAt, next));
      && (value.Failure? ==> ParseArgs(s, offset, n, d) == Failure(value.error))
      && (value.Success? ==>
        ParseArgs(s, offset, n, d) ==
          ParseArgs(s, next, n - 1, Put(d, Slice(s, offset + 12, valueAt), value.value)))
  {
    hide Field, Slice, ReadValue, Put;
  }

  /** A file fails with its first record that does. */
  lemma FileFails(s: Bytes, offset: nat)
    ensures offset >= |s| ==> ParseAll(s, offset) == Success([])
    ensures offset < |s| && ParseEvent(s, offset).Failure? ==>
      ParseAll(s, offset) == Failure(ParseEvent(s, offset).error)
    ensures offset < |s| && ParseEvent(s, offset).Success? ==>
      && var (p, next) := ParseEvent(s, offset).value;
      && (ParseAll(s, offset).Failure? <==> ParseAll(s, next).Failure?)
      && (ParseAll(s, next).Failure? ==> ParseAll(s, offset) == ParseAll(s, next))
      && (ParseAll(s, next).Success? ==> ParseAll(s, offset) == Success([p] + ParseAll(s, next).value))
  {
    hide ParseEvent;
  }
}
