/** The trace file: what NodeTrace writes for a call and what the parser reads at an offset. */
module TraceFormat {
  import opened QCDefs
  import opened Bytes

  datatype Kind = Begin | End | Event | Counter

  /** A trace argument; floating-point values are their bit patterns. */
  datatype Value =
    | Str(text: Bytes)
    | Double(d: UInt64) | Float(f: UInt32)
    | Uint64(u64: UInt64) | Uint32(u32: UInt32) | Uint16(u16: UInt16) | Uint8(u8: UInt8)
    | Sint64(i64: Int64) | Sint32(i32: Int32) | Sint16(i16: Int16) | Sint8(i8: Int8)

  datatype Arg = Arg(name: Bytes, value: Value)

  /** One NodeTrace object, and one call of Trace. */
  datatype Tracer = Tracer(name: Bytes, processor: Bytes, coreIdsMask: UInt32)
  datatype Call = Call(timestamp: UInt64, kind: Kind, name: Bytes, args: seq<Arg>)

  const HEADER: nat := 32
  const ARG_HEADER: nat := 12

  function KindCode(k: Kind): nat {
    match k case Begin => 0 case End => 1 case Event => 2 case Counter => 3
  }

  function TypeCode(v: Value): nat {
    match v
    case Str(_) => 0
    case Double(_) => 1 case Float(_) => 2
    case Uint64(_) => 3 case Uint32(_) => 4 case Uint16(_) => 5 case Uint8(_) => 6
    case Sint64(_) => 7 case Sint32(_) => 8 case Sint16(_) => 9 case Sint8(_) => 10
  }

  /** GetArgValueRawPtrAndSize: the bytes of the value in memory. */
  function RawBytes(v: Value): Bytes {
    match v
    case Str(s) => s
    case Double(x) => Encode(x, 8)
    case Float(x) => Encode(x, 4)
    case Uint64(x) => Encode(x, 8)
    case Uint32(x) => Encode(x, 4)
    case Uint16(x) => Encode(x, 2)
    case Uint8(x) => Encode(x, 1)
    case Sint64(x) => Encode(Unsigned(x, 8), 8)
    case Sint32(x) => Encode(Unsigned(x, 4), 4)
    case Sint16(x) => Encode(Unsigned(x, 2), 2)
    case Sint8(x) => Encode(Unsigned(x, 1), 1)
  }

  /** NodeTrace_EventHeader_t and NodeTrace_EventArg_t as they lie in memory. */
  function HeaderBytes(t: Tracer, c: Call): (r: Bytes)
    ensures |r| == HEADER
  {
    Encode(c.timestamp, 8) + Words(HeaderWords(t, c))
  }

  function HeaderWords(t: Tracer, c: Call): seq<UInt32> {
    [KindCode(c.kind), Wrap32(|t.name|), Wrap32(|t.processor|), Wrap32(|c.name|), t.coreIdsMask, Wrap32(|c.args|)]
  }

  function ArgHeaderBytes(a: Arg): (r: Bytes)
    ensures |r| == ARG_HEADER
  {
    Words([TypeCode(a.value), Wrap32(|a.name|), Wrap32(|RawBytes(a.value)|)])
  }

  function ArgBytes(a: Arg): Bytes {
    ArgHeaderBytes(a) + (a.name + RawBytes(a.value))
  }

  function ArgsBytes(args: seq<Arg>): Bytes {
    if args == [] then [] else ArgBytes(args[0]) + ArgsBytes(args[1..])
  }

  function RecordOf(t: Tracer, c: Call): Bytes {
    HeaderBytes(t, c) + (t.name + (t.processor + (c.name + ArgsBytes(c.args))))
  }

  /** The file after the calls of a log, in the order the lock let them in. */
  function FileOf(log: seq<(Tracer, Call)>): Bytes {
    if log == [] then [] else RecordOf(log[0].0, log[0].1) + FileOf(log[1..])
  }

  // ---------------------------------------------------------------- core ids

  function Bit(mask: nat, i: nat): bool {
    if i == 0 then mask % 2 == 1 else Bit(mask / 2, i - 1)
  }

  /** mask | (1 << i). */
  function SetBit(mask: nat, i: nat): nat {
    if i == 0 then mask / 2 * 2 + 1 else 2 * SetBit(mask / 2, i - 1) + mask % 2
  }

  /** The bits below n that are set, in order: toCoreIds is CoreIdsBelow(mask, 32). */
  function CoreIdsBelow(mask: nat, n: nat): seq<nat> {
    if n == 0 then [] else CoreIdsBelow(mask, n - 1) + (if Bit(mask, n - 1) then [n - 1] else [])
  }

  // ---------------------------------------------------------------- the parser

  /** What the parser makes of a value; Python has one integer type. */
  datatype PyValue =
    | Text(text: Bytes) | Real(bits: nat, size: nat) | Int(i: int) | Raw(raw: Bytes) | CoreIds(ids: seq<nat>)

  /** A Python dictionary: keys in the order they were first put. */
  type Dict = seq<(Bytes, PyValue)>

  function Put(d: Dict, key: Bytes, value: PyValue): Dict {
    if d == [] then [(key, value)]
    else if d[0].0 == key then [(key, value)] + d[1..]
    else [d[0]] + Put(d[1..], key, value)
  }

  function Get(d: Dict, key: Bytes, otherwise: PyValue): PyValue {
    if d == [] then otherwise else if d[0].0 == key then d[0].1 else Get(d[1..], key, otherwise)
  }

  datatype Parsed = Parsed(ts: nat, kind: Kind, name: Bytes, processor: Bytes, event: Bytes, args: Dict)

  /** Truncated: a header reaches past the end of the file. UnknownKind: no entry in TraceTypeMap. */
  datatype ParseError = Truncated | UnknownKind | ValueTooShort

  type ParseResult<T> = Result<T, ParseError>

  function Ascii(s: string): (r: Bytes)
    ensures |r| == |s|
  {
    if s == [] then [] else [Wrap8(s[0] as int)] + Ascii(s[1..])
  }

  const TIMESTAMP: Bytes := Ascii("timestamp")
  const CORE_IDS: Bytes := Ascii("coreIds")

  /** processor.upper(), on ASCII letters. */
  function Upper(s: Bytes): Bytes {
    seq(|s|, i requires 0 <= i < |s| => if 97 <= s[i] <= 122 then s[i] - 32 else s[i])
  }

  /** The dictionary args before the arguments of the record are put in. */
  function BaseArgs(ts: nat, mask: nat): Dict {
    [(TIMESTAMP, Int(ts))] + (if mask != 0 then [(CORE_IDS, CoreIds(CoreIdsBelow(mask, 32)))] else [])
  }

  /** Bytes that ctypes needs for the types 1 to 10. */
  function SizeOf(code: nat): nat {
    if code in {1, 3, 7} then 8 else if code in {2, 4, 8} then 4 else if code in {5, 9} then 2 else 1
  }

  function ReadValue(code: nat, raw: Bytes): ParseResult<PyValue> {
    if code == 0 then Success(Text(raw))
    else if code > 10 then Success(Raw(raw))
    else if |raw| < SizeOf(code) then Failure(ValueTooShort)
    else
      var size := SizeOf(code);
      var u := Decode(raw[..size]);
      Success(if code <= 2 then Real(u, size) else if code <= 6 then Int(u) else Int(Signed(u, size)))
  }

  /** n arguments at offset, put into d; with the offset behind them. */
  function ParseArgs(s: Bytes, offset: nat, n: nat, d: Dict): ParseResult<(Dict, nat)>
    decreases n
  {
    if n == 0 then Success((d, offset))
    else if offset + ARG_HEADER > |s| then Failure(Truncated)
    else
      var nameAt := offset + ARG_HEADER;
      var valueAt := nameAt + Field(s, offset + 4, 4);
      var next := valueAt + Field(s, offset + 8, 4);
      var value := ReadValue(Field(s, offset, 4), Slice(s, valueAt, next));
      if value.Failure? then Failure(value.error)
      else ParseArgs(s, next, n - 1, Put(d, Slice(s, nameAt, valueAt), value.value))
  }

  function KindOf(code: nat): Kind
    requires code <= 3
  {
    if code == 0 then Begin else if code == 1 then End else if code == 2 then Event else Counter
  }

  /** One record at offset, with the offset behind it. */
  function ParseEvent(s: Bytes, offset: nat): (r: ParseResult<(Parsed, nat)>)
    ensures r.Success? ==> r.value.1 >= offset + HEADER
  {
    if offset + HEADER > |s| then Failure(Truncated)
    else if Field(s, offset + 8, 4) > 3 then Failure(UnknownKind)
    else
      var nameAt := offset + HEADER;
      var processorAt := nameAt + Field(s, offset + 12, 4);
      var eventAt := processorAt + Field(s, offset + 16, 4);
      var argsAt := eventAt + Field(s, offset + 20, 4);
      var ts := Field(s, offset, 8);
      var args := ParseArgs(s, argsAt, Field(s, offset + 28, 4), BaseArgs(ts, Field(s, offset + 24, 4)));
      ArgsAdvance(s, argsAt, Field(s, offset + 28, 4), BaseArgs(ts, Field(s, offset + 24, 4)));
      if args.Failure? then Failure(args.error)
      else
        Success((Parsed(ts, KindOf(Field(s, offset + 8, 4)), Slice(s, nameAt, processorAt),
                        Upper(Slice(s, processorAt, eventAt)), Slice(s, eventAt, argsAt), args.value.0),
                 args.value.1))
  }

  lemma {:induction false} ArgsAdvance(s: Bytes, offset: nat, n: nat, d: Dict)
    ensures ParseArgs(s, offset, n, d).Success? ==> ParseArgs(s, offset, n, d).value.1 >= offset
    decreases n
  {
    if n > 0 && offset + ARG_HEADER <= |s| {
      var nameAt := offset + ARG_HEADER;
      var valueAt := nameAt + Field(s, offset + 4, 4);
      var next := valueAt + Field(s, offset + 8, 4);
      var value := ReadValue(Field(s, offset, 4), Slice(s, valueAt, next));
      if value.Success? {
        ArgsAdvance(s, next, n - 1, Put(d, Slice(s, nameAt, valueAt), value.value));
      }
    }
  }

  /** The whole file from offset on. */
  function ParseAll(s: Bytes, offset: nat): ParseResult<seq<Parsed>>
    decreases |s| - offset
  {
    if offset >= |s| then Success([])
    else
      var one := ParseEvent(s, offset);
      if one.Failure? then Failure(one.error)
      else Prepend([one.value.0], ParseAll(s, one.value.1))
  }

  function Prepend(done: seq<Parsed>, rest: ParseResult<seq<Parsed>>): ParseResult<seq<Parsed>> {
    if rest.Success? then Success(done + rest.value) else rest
  }
}
