/** Where every field of the formats lies, byte by byte. */
module ByteLayouts {
  import opened QCDefs
  import opened Bytes
  import TraceFormat
  import TraceProofs
  import WireFormat
  import WireProofs

  // ---------------------------------------------------------------- little-endian numbers

  function U16At(s: Bytes, o: nat): nat
    requires o + 2 <= |s|
  {
    s[o] + 0x100 * (s[o + 1] as int)
  }

  function U32At(s: Bytes, o: nat): nat
    requires o + 4 <= |s|
  {
    U16At(s, o) + 0x1_0000 * U16At(s, o + 2)
  }

  function U64At(s: Bytes, o: nat): nat
    requires o + 8 <= |s|
  {
    U32At(s, o) + 0x1_0000_0000 * U32At(s, o + 4)
  }

  lemma Two(s: Bytes)
    requires |s| == 2
    ensures Decode(s) == U16At(s, 0)
  {
    assert s[1..][1..] == [] && Decode(s[1..]) == s[1];
  }

  /** The first byte is the lowest. */
  lemma FourMore(s: Bytes)
    requires |s| >= 4
    ensures Decode(s) == U32At(s, 0) + 0x1_0000_0000 * Decode(s[4..])
  {
    var a := s[1..];
    var b := a[1..];
    var c := b[1..];
    assert c[1..] == s[4..];
    assert Decode(c) == s[3] + 256 * Decode(s[4..]);
    assert Decode(b) == s[2] + 256 * Decode(c);
    assert Decode(a) == s[1] + 256 * Decode(b);
  }

  lemma Four(s: Bytes)
    requires |s| == 4
    ensures Decode(s) == U32At(s, 0)
  {
    FourMore(s);
  }

  lemma Eight(s: Bytes)
    requires |s| == 8
    ensures Decode(s) == U64At(s, 0)
  {
    FourMore(s);
    Four(s[4..]);
  }

  /** A field is the little-endian number at its place. */
  lemma FieldsAre(s: Bytes, o: nat)
    ensures o + 1 <= |s| ==> Field(s, o, 1) == s[o]
    ensures o + 2 <= |s| ==> Field(s, o, 2) == U16At(s, o)
    ensures o + 4 <= |s| ==> Field(s, o, 4) == U32At(s, o)
    ensures o + 8 <= |s| ==> Field(s, o, 8) == U64At(s, o)
  {
    if o + 1 <= |s| {
      assert s[o..o + 1][1..] == [];
    }
    if o + 2 <= |s| {
      Two(s[o..o + 2]);
    }
    if o + 4 <= |s| {
      Four(s[o..o + 4]);
    }
    if o + 8 <= |s| {
      Eight(s[o..o + 8]);
    }
  }

  // ---------------------------------------------------------------- trace records

  /** NodeTrace_TraceType_e. */
  predicate KindIs(code: nat, kind: TraceFormat.Kind) {
    match kind case Begin => code == 0 case End => code == 1 case Event => code == 2 case Counter => code == 3
  }

  /** The fixed part of a record, and the texts behind it. */
  lemma RecordLayout(t: TraceFormat.Tracer, c: TraceFormat.Call)
    requires TraceProofs.Fits(t, c)
    ensures
      && var r, n, p, e := TraceFormat.RecordOf(t, c), |t.name|, |t.processor|, |c.name|;
      && |r| >= 32 + n + p + e
      && U64At(r, 0) == c.timestamp && KindIs(U32At(r, 8), c.kind)
      && U32At(r, 12) == n && U32At(r, 16) == p && U32At(r, 20) == e
      && U32At(r, 24) == t.coreIdsMask && U32At(r, 28) == |c.args|
      && r[32..32 + n] == t.name && r[32 + n..32 + n + p] == t.processor
      && r[32 + n + p..32 + n + p + e] == c.name && r[32 + n + p + e..] == TraceFormat.ArgsBytes(c.args)
  {
    hide Field, Encode, TraceFormat.HeaderBytes, TraceFormat.ArgsBytes, U32At, U64At;
    var args := TraceFormat.ArgsBytes(c.args);
    var header := TraceFormat.HeaderBytes(t, c);
    var r := TraceFormat.RecordOf(t, c);
    assert r[0..32] == header;
    TraceProofs.HeaderIs(r, 0, t, c);
    FieldsAre(r, 0);
    FieldsAre(r, 8);
    FieldsAre(r, 12);
    FieldsAre(r, 16);
    FieldsAre(r, 20);
    FieldsAre(r, 24);
    FieldsAre(r, 28);
  }

  /** The type codes of arguments, and the bytes of a value. */
  predicate TypeIs(code: nat, raw: Bytes, v: TraceFormat.Value) {
    match v
    case Str(s) => code == 0 && raw == s
    case Double(x) => code == 1 && |raw| == 8 && U64At(raw, 0) == x
    case Float(x) => code == 2 && |raw| == 4 && U32At(raw, 0) == x
    case Uint64(x) => code == 3 && |raw| == 8 && U64At(raw, 0) == x
    case Uint32(x) => code == 4 && |raw| == 4 && U32At(raw, 0) == x
    case Uint16(x) => code == 5 && |raw| == 2 && U16At(raw, 0) == x
    case Uint8(x) => code == 6 && |raw| == 1 && raw[0] == x
    case Sint64(x) => code == 7 && |raw| == 8 && U64At(raw, 0) == x % 0x1_0000_0000_0000_0000
    case Sint32(x) => code == 8 && |raw| == 4 && U32At(raw, 0) == x % 0x1_0000_0000
    case Sint16(x) => code == 9 && |raw| == 2 && U16At(raw, 0) == x % 0x1_0000
    case Sint8(x) => code == 10 && |raw| == 1 && raw[0] == x % 0x100
  }

  lemma ValueLayout(v: TraceFormat.Value)
    ensures TypeIs(TraceFormat.TypeCode(v), TraceFormat.RawBytes(v), v)
  {
    var raw := TraceFormat.RawBytes(v);
    FieldsAre(raw, 0);
    assert Slice(raw, 0, |raw|) == raw;
    Widths();
    hide U16At, U32At, U64At;
    match v
    case Str(s) =>
    case Double(x) => DecodeEncode(x, 8);
    case Float(x) => DecodeEncode(x, 4);
    case Uint64(x) => DecodeEncode(x, 8);
    case Uint32(x) => DecodeEncode(x, 4);
    case Uint16(x) => DecodeEncode(x, 2);
    case Uint8(x) => DecodeEncode(x, 1);
    case Sint64(x) => DecodeEncode(Unsigned(x, 8), 8);
    case Sint32(x) => DecodeEncode(Unsigned(x, 4), 4);
    case Sint16(x) => DecodeEncode(Unsigned(x, 2), 2);
    case Sint8(x) => DecodeEncode(Unsigned(x, 1), 1);
  }

  /** An argument: type, length of the name, length of the value, name and value. */
  lemma ArgumentLayout(a: TraceFormat.Arg)
    requires TraceProofs.ArgFits(a)
    ensures
      && var r, raw := TraceFormat.ArgBytes(a), TraceFormat.RawBytes(a.value);
      && |r| == 12 + |a.name| + |raw|
      && TypeIs(U32At(r, 0), raw, a.value) && U32At(r, 4) == |a.name| && U32At(r, 8) == |raw|
      && r[12..12 + |a.name|] == a.name && r[12 + |a.name|..] == raw
  {
    hide Field, U32At, TypeIs, TraceFormat.RawBytes, TraceFormat.TypeCode, TraceFormat.ArgHeaderBytes;
    var r := TraceFormat.ArgBytes(a);
    assert r[0..12] == TraceFormat.ArgHeaderBytes(a);
    TraceProofs.ArgHeaderIs(r, 0, a);
    ValueLayout(a.value);
    FieldsAre(r, 0);
    FieldsAre(r, 4);
    FieldsAre(r, 8);
  }

  /** processor.upper(): small letters become capitals, everything else stays. */
  lemma UpperIs(s: Bytes, i: nat)
    requires i < |s|
    ensures |TraceFormat.Upper(s)| == |s|
    ensures TraceFormat.Upper(s)[i] == if 'a' as int <= s[i] <= 'z' as int then s[i] - 'a' as int + 'A' as int else s[i]
  {
  }

  /** The parser's own keys: "timestamp", and "coreIds" when the mask is not zero. */
  lemma OwnKeys(ts: nat, mask: nat)
    ensures
      && var d := TraceFormat.BaseArgs(ts, mask);
      && |d| == (if mask == 0 then 1 else 2)
      && d[0] == ([116, 105, 109, 101, 115, 116, 97, 109, 112], TraceFormat.Int(ts))
      && (mask != 0 ==>
        && d[1].0 == [99, 111, 114, 101, 73, 100, 115] && d[1].1.CoreIds?
        && forall i: nat :: i in d[1].1.ids <==> i < 32 && TraceFormat.Bit(mask, i))
  {
    Letters("timestamp", [116, 105, 109, 101, 115, 116, 97, 109, 112]);
    Letters("coreIds", [99, 111, 114, 101, 73, 100, 115]);
    TraceProofs.CoreIdsAre(mask, 32);
    hide TraceFormat.CoreIdsBelow, TraceFormat.Ascii;
  }

  lemma {:induction false} Letters(s: string, b: Bytes)
    requires |s| == |b| && forall i :: 0 <= i < |s| ==> s[i] as int == b[i]
    ensures TraceFormat.Ascii(s) == b
  {
    if s != [] {
      Letters(s[1..], b[1..]);
    }
  }

  /** Bit i of a mask is the remainder by two after i halvings. */
  lemma {:induction false} BitIs(mask: nat, i: nat)
    ensures TraceFormat.Bit(mask, i) <==> mask / TraceProofs.Pow2(i) % 2 == 1
  {
    if i > 0 {
      BitIs(mask / 2, i - 1);
      Halves(mask, TraceProofs.Pow2(i - 1));
    } else {
      assert mask / 1 == mask;
    }
  }

  lemma Halves(mask: nat, p: nat)
    requires p > 0
    ensures mask / 2 / p == mask / (2 * p)
  {
    var q, r := mask / 2 / p, mask / 2 % p;
    assert mask / 2 == q * p + r;
    assert mask == q * (2 * p) + (2 * r + mask % 2);
    DivisionUnique(mask, 2 * p, q, 2 * r + mask % 2);
  }

  // ---------------------------------------------------------------- messages

  /** DataMeta: size of the payload, identifier, time, number of items and command; the rest is zero. */
  lemma HeaderLayout(m: WireFormat.Message)
    requires WireFormat.Fits(m)
    ensures
      && var h := WireFormat.HeaderBytes(m);
      && U64At(h, 0) == |WireFormat.Payload(m.items)| && U64At(h, 8) == m.id && U64At(h, 16) == m.timestamp
      && U32At(h, 24) == |m.items| && U32At(h, 28) == 0
  {
    hide Field, WireFormat.HeaderBytes, WireFormat.Payload, U32At, U64At;
    var h := WireFormat.HeaderBytes(m);
    WireProofs.HeaderRoundTrip(m);
    FieldsAre(h, 0);
    FieldsAre(h, 8);
    FieldsAre(h, 16);
    FieldsAre(h, 24);
    FieldsAre(h, 28);
  }

  lemma {:induction false} WordsLie(s: Bytes, offset: nat, ws: seq<UInt32>, k: nat)
    requires At(s, offset, Words(ws)) && k < |ws|
    ensures offset + 4 * k + 4 <= |s| && U32At(s, offset + 4 * k) == ws[k]
  {
    hide U32At;
    WordIs(s, offset, ws, k);
    FieldsAre(s, offset + 4 * k);
  }

  predicate FourAt(s: Bytes, o: nat, x: seq<nat>) {
    o + 16 <= |s| && |x| == 4 && forall k :: 0 <= k < 4 ==> U32At(s, o + 4 * k) == x[k]
  }

  /** DataImageMeta. */
  lemma ImageLayout(m: WireFormat.ImageMeta)
    requires WireFormat.ImageFits(m)
    ensures
      && var s := WireFormat.ImageBytes(m);
      && U32At(s, 0) == m.dataType && U32At(s, 4) == m.size && U32At(s, 8) == m.format && U32At(s, 12) == m.batchSize
      && U32At(s, 16) == m.width && U32At(s, 20) == m.height
      && FourAt(s, 24, m.stride) && FourAt(s, 40, m.actualHeight) && FourAt(s, 56, m.planeBufSize)
      && U32At(s, 72) == m.numPlanes
  {
    hide At, Words, U32At, WireFormat.Fill;
    var s := WireFormat.ImageBytes(m);
    var first: seq<UInt32> :=
      [Wrap32(m.dataType), Wrap32(m.size), Wrap32(m.format), Wrap32(m.batchSize), Wrap32(m.width), Wrap32(m.height)];
    var stride, actual := Words(WireFormat.Fill(m.stride, 4)), Words(WireFormat.Fill(m.actualHeight, 4));
    var plane := Words(WireFormat.Fill(m.planeBufSize, 4));
    var last: seq<UInt32> := [Wrap32(m.numPlanes)];
    var zeros := WireFormat.Zeros(52);
    WireProofs.WholeAt(s);
    AtThree(s, 0, Words(first), stride, actual + (plane + (Words(last) + zeros)));
    AtThree(s, 40, actual, plane, Words(last) + zeros);
    AtParts(s, 72, Words(last), zeros);
    WordsLie(s, 0, first, 0);
    WordsLie(s, 0, first, 1);
    WordsLie(s, 0, first, 2);
    WordsLie(s, 0, first, 3);
    WordsLie(s, 0, first, 4);
    WordsLie(s, 0, first, 5);
    FourLie(s, 24, m.stride);
    FourLie(s, 40, m.actualHeight);
    FourLie(s, 56, m.planeBufSize);
    WordsLie(s, 72, last, 0);
  }

  lemma FourLie(s: Bytes, o: nat, x: seq<nat>)
    requires WireFormat.Four(x) && At(s, o, Words(WireFormat.Fill(x, 4)))
    ensures FourAt(s, o, x)
  {
    hide At, Words, U32At;
    forall k | 0 <= k < 4 ensures o + 4 * k + 4 <= |s| && U32At(s, o + 4 * k) == x[k] {
      assert WireFormat.Word(x[k]);
      WordsLie(s, o, WireFormat.Fill(x, 4), k);
    }
    WordsLie(s, o, WireFormat.Fill(x, 4), 3);
  }

  /** Eight words from byte 12 on: the dimensions, then zeros. */
  predicate DimsAt(s: Bytes, dims: seq<nat>) {
    44 <= |s| && forall k :: 0 <= k < 8 ==> DimAt(s, k) == if k < |dims| then dims[k] else 0
  }

  function DimAt(s: Bytes, k: nat): nat
    requires k < 8 && 44 <= |s|
  {
    U32At(s, 12 + 4 * k)
  }

  /** DataTensorMeta. */
  lemma TensorLayout(t: WireFormat.Item)
    requires t.Tensor? && WireFormat.ItemFits(t)
    ensures
      && var s := WireFormat.TensorBytes(t);
      && U32At(s, 0) == 3 && U32At(s, 4) == |t.raw| && U32At(s, 8) == t.elementType
      && DimsAt(s, t.dims)
      && U32At(s, 44) == |t.dims| && U32At(s, 48) == t.quantScale
      && U32At(s, 52) == t.quantOffset % 0x1_0000_0000
      && s[56..56 + |t.name|] == t.name && forall i :: 56 + |t.name| <= i < 128 ==> s[i] == 0
  {
    hide At, Words, U32At, WireFormat.NameField;
    var s := WireFormat.TensorBytes(t);
    var first: seq<UInt32> := [WireFormat.TYPE_TENSOR, Wrap32(|t.raw|), Wrap32(t.elementType)];
    var dims := WireFormat.Fill(t.dims, 8);
    var last: seq<UInt32> := [Wrap32(|t.dims|), Wrap32(t.quantScale), Wrap32(t.quantOffset)];
    var name, zeros := WireFormat.NameField(t.name), WireFormat.Zeros(8);
    WireProofs.WholeAt(s);
    AtThree(s, 0, Words(first), Words(dims), Words(last) + (name + zeros));
    AtThree(s, 44, Words(last), name, zeros);
    WordsLie(s, 0, first, 0);
    WordsLie(s, 0, first, 1);
    WordsLie(s, 0, first, 2);
    forall k | 0 <= k < 8 ensures DimAt(s, k) == if k < |t.dims| then t.dims[k] else 0 {
      if k < |t.dims| {
        assert WireFormat.Word(t.dims[k]);
      }
      WordsLie(s, 12, dims, k);
    }
    WordsLie(s, 44, last, 0);
    WordsLie(s, 44, last, 1);
    WordsLie(s, 44, last, 2);
    NameLies(s, t.name);
  }

  lemma NameLies(s: Bytes, name: Bytes)
    requires |s| == 128 && |name| <= 64
    requires At(s, 56, WireFormat.NameField(name)) && At(s, 120, WireFormat.Zeros(8))
    ensures s[56..56 + |name|] == name && forall i :: 56 + |name| <= i < 128 ==> s[i] == 0
  {
    var field := WireFormat.NameField(name);
    assert s[56..120] == field && s[120..128] == WireFormat.Zeros(8);
    assert field[..|name|] == name && forall i :: |name| <= i < 64 ==> field[i] == 0;
    assert s[56..56 + |name|] == field[..|name|];
    forall i | 56 + |name| <= i < 128 ensures s[i] == 0 {
      if i < 120 {
        assert s[i] == field[i - 56];
      } else {
        assert s[i] == WireFormat.Zeros(8)[i - 120];
      }
    }
  }
}
