/** Image and tensor descriptors: where samples lie in a buffer, in the source's 32- and 64-bit arithmetic. */
module ImageLayoutSpec {
  import opened QCDefs

  // QCImageFormat_e
  const RGB888: int := 0
  const BGR888: int := 1
  const UYVY: int := 2
  const NV12: int := 3
  const P010: int := 4
  const NV12_UBWC: int := 5
  const TP10_UBWC: int := 6
  const FORMAT_MAX: int := 7
  const COMPRESSED_MIN: int := 100
  const COMPRESSED_MAX: int := 102

  const NUM_PLANES: nat := 4

  datatype BufferKind = ImageBuffer | TensorBuffer | OtherBuffer
  datatype TensorType = Fixed8 | Fixed16

  /** The part all descriptors share; pBuf tells whether the buffer is allocated. */
  datatype Buffer = Buffer(pBuf: bool, kind: BufferKind, size: UInt64, validSize: UInt64, offset: UInt64)

  /** A field with one entry per plane. */
  type Planes = s: seq<UInt32> | |s| == NUM_PLANES witness [0, 0, 0, 0]

  datatype Image = Image(
    buffer: Buffer, format: int, batchSize: UInt32, width: UInt32, height: UInt32, numPlanes: UInt32,
    stride: Planes, actualHeight: Planes, planeBufSize: Planes)

  datatype Tensor = Tensor(buffer: Buffer, tensorType: TensorType, dims: seq<UInt32>)

  predicate Uncompressed(format: int) { RGB888 <= format < FORMAT_MAX }

  function BytesPerPixel(format: int): UInt32
    requires Uncompressed(format)
  {
    if format == RGB888 || format == BGR888 then 3
    else if format == UYVY || format == P010 || format == TP10_UBWC then 2
    else 1
  }

  function PlanesOf(format: int): nat
    requires Uncompressed(format)
  {
    if format <= UYVY then 1 else if format <= P010 then 2 else 4
  }

  function HeightDivider(format: int, plane: nat): nat
    requires Uncompressed(format) && plane < NUM_PLANES
  {
    if format == NV12 || format == P010 then (if plane == 1 then 2 else 1)
    else if format == NV12_UBWC || format == TP10_UBWC then (if plane >= 2 then 2 else 1)
    else 1
  }

  function ElementSize(t: TensorType): nat { if t == Fixed8 then 1 else 2 }

  // ---------------------------------------------------------------- images as tensors

  predicate OnePlane(format: int) { format == RGB888 || format == BGR888 || format == UYVY }

  predicate TwoPlanes(format: int) { format == NV12 || format == P010 }

  /** The rows follow each other without padding, as far as 32 bits can tell. */
  predicate PackedRows(i: Image)
    requires Uncompressed(i.format)
  {
    i.stride[0] == Wrap32(i.width * BytesPerPixel(i.format))
  }

  function TensorStatus(i: Image): Status {
    if !i.buffer.pBuf then InvalidBuf
    else if i.buffer.kind != ImageBuffer || !OnePlane(i.format) || !PackedRows(i) then Unsupported
    else if i.batchSize > 1 && i.actualHeight[0] != i.height then Unsupported
    else if i.batchSize > 1 && i.planeBufSize[0] != Wrap32(i.stride[0] * i.height) then Unsupported
    else Ok
  }

  function Product(a: nat, b: nat, c: nat, d: nat): nat { a * b * c * d }

  function AsTensor(i: Image): Tensor
    requires OnePlane(i.format)
  {
    var bpp := BytesPerPixel(i.format);
    var size := Wrap64(Product(i.batchSize, i.height, i.width, bpp));
    Tensor(i.buffer.(kind := TensorBuffer, validSize := size), Fixed8, [i.batchSize, i.height, i.width, bpp])
  }

  function LumaChromaStatus(i: Image): Status {
    if !i.buffer.pBuf then InvalidBuf
    else if i.buffer.kind != ImageBuffer || !TwoPlanes(i.format) || !PackedRows(i) then Unsupported
    else if i.batchSize > 1 || i.height % 2 != 0 || i.width % 2 != 0 then Unsupported
    else Ok
  }

  function AsLuma(i: Image): Tensor
    requires TwoPlanes(i.format)
  {
    var size := Wrap64(i.height * i.width * BytesPerPixel(i.format));
    Tensor(i.buffer.(kind := TensorBuffer, validSize := size), if i.format == NV12 then Fixed8 else Fixed16,
           [1, i.height, i.width, 1])
  }

  function AsChroma(i: Image): Tensor
    requires TwoPlanes(i.format)
  {
    var size := Wrap64(i.height * i.width * BytesPerPixel(i.format)) / 2;
    Tensor(i.buffer.(kind := TensorBuffer, validSize := size, offset := Wrap64(i.buffer.offset + i.planeBufSize[0])),
           if i.format == NV12 then Fixed8 else Fixed16, [1, i.height / 2, i.width / 2, 2])
  }

  /** Byte c of pixel (x, y) of image b, in a plane that starts at start. */
  function SampleAt(start: int, perImage: int, stride: int, bpp: int, b: nat, y: nat, x: nat, c: nat): int {
    start + b * perImage + y * stride + x * bpp + c
  }

  /** The first byte of an element of a tensor with four dimensions, row by row. */
  function ElementAt(t: Tensor, b: nat, y: nat, x: nat, c: nat): int
    requires |t.dims| == 4
  {
    t.buffer.offset + (((b * t.dims[1] + y) * t.dims[2] + x) * t.dims[3] + c) * ElementSize(t.tensorType)
  }

  predicate InTensor(t: Tensor, b: nat, y: nat, x: nat, c: nat)
    requires |t.dims| == 4
  {
    b < t.dims[0] && y < t.dims[1] && x < t.dims[2] && c < t.dims[3]
  }

  // ---------------------------------------------------------------- slices of a batch

  function SliceStatus(i: Image, batchOffset: UInt32, batchSize: UInt32): Status {
    if !i.buffer.pBuf then InvalidBuf
    else if i.buffer.kind != ImageBuffer then Unsupported
    else if batchOffset >= i.batchSize || batchSize > i.batchSize - batchOffset then BadArguments
    else Ok
  }

  function SingleSize(i: Image): nat
    requires i.batchSize > 0
  {
    i.buffer.size / i.batchSize
  }

  // ---------------------------------------------------------------- descriptors from properties

  datatype Props = Props(format: int, batchSize: UInt32, width: UInt32, height: UInt32, numPlanes: UInt32,
                         stride: Planes, actualHeight: Planes, planeBufSize: Planes)

  predicate PlaneOk(p: Props, k: nat)
    requires Uncompressed(p.format) && k < NUM_PLANES
  {
    && Wrap32(p.width * BytesPerPixel(p.format)) <= p.stride[k]
    && p.height / HeightDivider(p.format, k) <= p.actualHeight[k]
    && (p.planeBufSize[k] == 0 || p.planeBufSize[k] >= Wrap32(p.stride[k] as int * p.actualHeight[k]))
  }

  predicate PropsOk(p: Props) {
    && p.batchSize != 0 && p.width != 0 && p.height != 0
    && (if Uncompressed(p.format) then
          p.numPlanes == PlanesOf(p.format) && forall k :: 0 <= k < p.numPlanes ==> PlaneOk(p, k)
        else COMPRESSED_MIN <= p.format < COMPRESSED_MAX && p.numPlanes == 1 && p.planeBufSize[0] != 0)
  }

  /** A plane as counted into the size, in 64 bits, and as noted in the descriptor, in 32. */
  function PlaneSize(p: Props, k: nat): nat
    requires k < NUM_PLANES
  {
    if p.planeBufSize[k] != 0 then p.planeBufSize[k] else p.stride[k] as int * p.actualHeight[k]
  }

  function NotedSize(p: Props, k: nat): UInt32
    requires k < NUM_PLANES
  {
    Wrap32(PlaneSize(p, k))
  }

  function PlaneSizes(p: Props, n: nat): nat
    requires n <= NUM_PLANES
  {
    if n == 0 then 0 else PlaneSizes(p, n - 1) + PlaneSize(p, n - 1)
  }

  function NotedSizes(p: Props, n: nat): nat
    requires n <= NUM_PLANES
  {
    if n == 0 then 0 else NotedSizes(p, n - 1) + NotedSize(p, n - 1)
  }

  function ImageSize(p: Props): UInt64
    requires PropsOk(p)
  {
    if Uncompressed(p.format) then Wrap64(PlaneSizes(p, p.numPlanes) * p.batchSize) else p.planeBufSize[0]
  }
}
