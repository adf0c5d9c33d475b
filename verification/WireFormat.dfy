/** Messages between DataOnline and its peer: a 128-byte header, one 128-byte description per item, then the raw
    data. */
module WireFormat {
  import opened QCDefs
  import opened Bytes

  const META: nat := 128
  const COMMAND_DATA: nat := 0
  const TYPE_TENSOR: nat := 3

  /** The values of DataImageMeta. */
  datatype ImageMeta = ImageMeta(
    dataType: nat, size: nat, format: nat, batchSize: nat, width: nat, height: nat,
    stride: seq<nat>, actualHeight: seq<nat>, planeBufSize: seq<nat>, numPlanes: nat)

  /** A tensor or an image with its raw data; the scale is the bit pattern of a float. */
  datatype Item =
    | Tensor(name: Bytes, elementType: nat, dims: seq<nat>, quantScale: nat, quantOffset: int, raw: Bytes)
    | Image(meta: ImageMeta, raw: Bytes)

  datatype Message = Message(id: nat, timestamp: nat, items: seq<Item>)

  // ---------------------------------------------------------------- what a writer may be asked to send

  ghost predicate Word(x: int) { 0 <= x < U32 }

  ghost predicate Four(s: seq<nat>) { |s| == 4 && forall x <- s :: Word(x) }

  ghost predicate ImageFits(m: ImageMeta) {
    && m.dataType != TYPE_TENSOR && Word(m.dataType) && Word(m.size) && Word(m.format) && Word(m.batchSize)
    && Word(m.width) && Word(m.height) && Word(m.numPlanes)
    && Four(m.stride) && Four(m.actualHeight) && Four(m.planeBufSize)
  }

  /** The fields of the structures hold the values, and the size field tells the size of the data. */
  ghost predicate ItemFits(item: Item) {
    match item
    case Tensor(name, elementType, dims, quantScale, quantOffset, raw) =>
      && |name| <= 64 && |dims| <= 8 && (forall d <- dims :: Word(d))
      && Word(elementType) && Word(quantScale) && -0x8000_0000 <= quantOffset < 0x8000_0000 && Word(|raw|)
    case Image(meta, raw) => ImageFits(meta) && meta.size == |raw|
  }

  ghost predicate AllFit(items: seq<Item>) { forall i :: 0 <= i < |items| ==> ItemFits(items[i]) }

  ghost predicate Fits(m: Message) {
    && m.id < U64 && m.timestamp < U64 && 0 < |m.items| < U32 && |Payload(m.items)| < U64
    && AllFit(m.items)
  }

  // ---------------------------------------------------------------- writing

  function Zeros(n: nat): (r: Bytes)
    ensures |r| == n
  {
    seq(n, _ => 0)
  }

  /** The first n values, as 32-bit fields; absent ones are zero. */
  function Fill(s: seq<nat>, n: nat): (r: seq<UInt32>)
    ensures |r| == n
  {
    seq(n, i requires 0 <= i < n => if i < |s| then Wrap32(s[i]) else 0)
  }

  /** memmove of the name into its 64 bytes; a longer name would leave the structure. */
  function NameField(name: Bytes): (r: Bytes)
    ensures |r| == 64
  {
    if |name| <= 64 then name + Zeros(64 - |name|) else name[..64]
  }

  function TensorBytes(t: Item): (r: Bytes)
    requires t.Tensor?
    ensures |r| == META
  {
    Words([TYPE_TENSOR, Wrap32(|t.raw|), Wrap32(t.elementType)])
    + (Words(Fill(t.dims, 8))
    + (Words([Wrap32(|t.dims|), Wrap32(t.quantScale), Wrap32(t.quantOffset)])
    + (NameField(t.name) + Zeros(8))))
  }

  function ImageBytes(m: ImageMeta): (r: Bytes)
    ensures |r| == META
  {
    Words([Wrap32(m.dataType), Wrap32(m.size), Wrap32(m.format), Wrap32(m.batchSize), Wrap32(m.width),
           Wrap32(m.height)])
    + (Words(Fill(m.stride, 4))
    + (Words(Fill(m.actualHeight, 4))
    + (Words(Fill(m.planeBufSize, 4))
    + (Words([Wrap32(m.numPlanes)]) + Zeros(52)))))
  }

  function MetaBytes(item: Item): (r: Bytes)
    ensures |r| == META
  {
    if item.Tensor? then TensorBytes(item) else ImageBytes(item.meta)
  }

  function MetasOf(items: seq<Item>): (r: Bytes)
    ensures |r| == META * |items|
  {
    if items == [] then [] else MetaBytes(items[0]) + MetasOf(items[1..])
  }

  function RawOf(items: seq<Item>): Bytes {
    if items == [] then [] else items[0].raw + RawOf(items[1..])
  }

  function Payload(items: seq<Item>): Bytes { MetasOf(items) + RawOf(items) }

  function HeaderBytes(m: Message): (r: Bytes)
    ensures |r| == META
  {
    Encode(Wrap64(|Payload(m.items)|), 8)
    + (Encode(Wrap64(m.id), 8) + (Encode(Wrap64(m.timestamp), 8)
    + (Words([Wrap32(|m.items|), COMMAND_DATA]) + Zeros(96))))
  }

  function MessageBytes(m: Message): Bytes { HeaderBytes(m) + Payload(m.items) }

  // ---------------------------------------------------------------- reading

  /** NoDatas: an empty message or another command. Malformed: a description reaches past the payload, or a tensor
      has more than eight dimensions. */
  datatype WireError = NoDatas | Malformed | TimedOut

  function WordsAt(s: Bytes, from: nat, n: nat): (r: seq<nat>)
    ensures |r| == n
  {
    seq(n, i requires 0 <= i < n => Field(s, from + 4 * i, 4))
  }

  function StripLeft(s: Bytes): Bytes { if s != [] && s[0] == 0 then StripLeft(s[1..]) else s }

  function StripRight(s: Bytes): Bytes { if s != [] && s[|s| - 1] == 0 then StripRight(s[..|s| - 1]) else s }

  /** strip('\x00'). */
  function Strip(s: Bytes): Bytes { StripRight(StripLeft(s)) }

  function SizeAt(meta: Bytes): nat { Field(meta, 4, 4) }

  function TensorAt(meta: Bytes, raw: Bytes): Item
    requires Field(meta, 44, 4) <= 8
  {
    Tensor(Strip(Slice(meta, 56, 120)), Field(meta, 8, 4), WordsAt(meta, 12, Field(meta, 44, 4)), Field(meta, 48, 4),
           Signed(Field(meta, 52, 4), 4), raw)
  }

  function ImageAt(meta: Bytes, raw: Bytes): Item {
    Image(ImageMeta(Field(meta, 0, 4), Field(meta, 4, 4), Field(meta, 8, 4), Field(meta, 12, 4), Field(meta, 16, 4),
                    Field(meta, 20, 4), WordsAt(meta, 24, 4), WordsAt(meta, 40, 4), WordsAt(meta, 56, 4),
                    Field(meta, 72, 4)), raw)
  }

  function ItemAt(meta: Bytes, raw: Bytes): Result<Item, WireError> {
    if Field(meta, 0, 4) != TYPE_TENSOR then Success(ImageAt(meta, raw))
    else if Field(meta, 44, 4) > 8 then Failure(Malformed)
    else Success(TensorAt(meta, raw))
  }

  /** n items, with their descriptions from metaAt and their data from dataAt on. */
  function ItemsAt(payload: Bytes, metaAt: nat, n: nat, dataAt: nat): Result<seq<Item>, WireError>
    decreases n
  {
    if n == 0 then Success([])
    else if metaAt + META > |payload| then Failure(Malformed)
    else
      var meta := payload[metaAt..metaAt + META];
      var next := dataAt + SizeAt(meta);
      Cons(ItemAt(meta, Slice(payload, dataAt, next)), ItemsAt(payload, metaAt + META, n - 1, next))
  }

  /** An item and the rest, or the first error. */
  function Cons(item: Result<Item, WireError>, rest: Result<seq<Item>, WireError>): Result<seq<Item>, WireError> {
    if item.Failure? then Failure(item.error) else if rest.Failure? then rest else Success([item.value] + rest.value)
  }

  function PayloadSize(header: Bytes): nat { Field(header, 0, 8) }

  predicate HasDatas(header: Bytes) { Field(header, 24, 4) != 0 && Field(header, 28, 4) == COMMAND_DATA }

  function Decoded(header: Bytes, payload: Bytes): Result<Message, WireError> {
    var items := ItemsAt(payload, 0, Field(header, 24, 4), META * Field(header, 24, 4));
    if items.Failure? then Failure(items.error)
    else Success(Message(Field(header, 8, 8), Field(header, 16, 8), items.value))
  }

  /** The dictionary Read fills: tensors under their names, images under their positions; a later entry replaces an
      earlier one with the same key. */
  datatype Key = ByName(name: Bytes) | ByPosition(i: nat)

  function KeyAt(items: seq<Item>, i: nat): Key
    requires i < |items|
  {
    if items[i].Tensor? then ByName(items[i].name) else ByPosition(i)
  }

  function Dictionary(items: seq<Item>): map<Key, Item> {
    if items == [] then map[]
    else Dictionary(items[..|items| - 1])[KeyAt(items, |items| - 1) := items[|items| - 1]]
  }
}
