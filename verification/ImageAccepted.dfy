/** Which image properties are accepted, format by format. */
module ImageAccepted {
  import opened QCDefs
  import opened ImageLayoutSpec

  /** Plane k has rows of at least width pixels of so many bytes and at least height / divider rows; its size, if given,
      is enough for them, in 32 bits. */
  predicate PlaneHolds(p: Props, k: nat, bytes: nat, divider: nat)
    requires k < 4 && divider > 0
  {
    && p.width * bytes % 0x1_0000_0000 <= p.stride[k] && p.height / divider <= p.actualHeight[k]
    && (p.planeBufSize[k] == 0 || p.planeBufSize[k] >= p.stride[k] as int * p.actualHeight[k] % 0x1_0000_0000)
  }

  /** RGB888, BGR888, UYVY, NV12, P010, NV12_UBWC and TP10_UBWC with their planes; the two compressed formats. */
  predicate FormatHolds(p: Props) {
    if p.format == 0 || p.format == 1 then p.numPlanes == 1 && PlaneHolds(p, 0, 3, 1)
    else if p.format == 2 then p.numPlanes == 1 && PlaneHolds(p, 0, 2, 1)
    else if p.format == 3 || p.format == 4 then
      var bytes := if p.format == 3 then 1 else 2;
      p.numPlanes == 2 && PlaneHolds(p, 0, bytes, 1) && PlaneHolds(p, 1, bytes, 2)
    else if p.format == 5 || p.format == 6 then
      var bytes := if p.format == 5 then 1 else 2;
      && p.numPlanes == 4 && PlaneHolds(p, 0, bytes, 1) && PlaneHolds(p, 1, bytes, 1)
      && PlaneHolds(p, 2, bytes, 2) && PlaneHolds(p, 3, bytes, 2)
    else (p.format == 100 || p.format == 101) && p.numPlanes == 1 && p.planeBufSize[0] > 0
  }

  /** Properties are accepted if and only if no measure is zero and every plane of the format holds its part. */
  lemma AcceptedIff(p: Props)
    ensures PropsOk(p) <==> p.batchSize > 0 && p.width > 0 && p.height > 0 && FormatHolds(p)
  {
    if Uncompressed(p.format) {
      PlanesAre(p);
      forall k | 0 <= k < p.numPlanes && p.numPlanes <= 4
        ensures PlaneOk(p, k) <==> PlaneHolds(p, k, BytesPerPixel(p.format), HeightDivider(p.format, k))
      {
      }
      hide PlaneOk, PlaneHolds;
      if p.numPlanes == PlanesOf(p.format) {
        EachPlane(p);
      }
    }
  }

  lemma PlanesAre(p: Props)
    requires Uncompressed(p.format)
    ensures PlanesOf(p.format) <= 4
  {
  }

  lemma EachPlane(p: Props)
    requires Uncompressed(p.format) && p.numPlanes == PlanesOf(p.format) && p.numPlanes <= 4
    ensures (forall k :: 0 <= k < p.numPlanes ==> PlaneOk(p, k)) <==>
      && PlaneOk(p, 0) && (p.numPlanes > 1 ==> PlaneOk(p, 1))
      && (p.numPlanes > 2 ==> PlaneOk(p, 2) && PlaneOk(p, 3))
  {
    hide PlaneOk;
  }

  /** An NV12 or P010 image without any padding is accepted. */
  lemma TightIsAccepted(format: int, batchSize: UInt32, width: UInt32, height: UInt32)
    requires format in {3, 4} && batchSize > 0 && width > 0 && height > 0
    requires width * 2 < 0x1_0000_0000
    ensures
      var row := if format == 3 then width else width * 2;
      PropsOk(Props(format, batchSize, width, height, 2, [row, row, 0, 0], [height, height / 2, 0, 0], [0, 0, 0, 0]))
  {
    var row := if format == 3 then width else width * 2;
    AcceptedIff(
      Props(format, batchSize, width, height, 2, [row, row, 0, 0], [height, height / 2, 0, 0], [0, 0, 0, 0]));
  }

  /** The status of every conversion, by format and buffer. */
  lemma ConvertibleIff(i: Image)
    ensures TensorStatus(i) == Ok <==>
      && i.buffer.pBuf && i.buffer.kind == ImageBuffer && i.format in {0, 1, 2}
      && i.stride[0] == i.width * (if i.format == 2 then 2 else 3) % 0x1_0000_0000
      && (i.batchSize > 1 ==>
        i.actualHeight[0] == i.height && i.planeBufSize[0] == i.stride[0] as int * i.height % 0x1_0000_0000)
    ensures LumaChromaStatus(i) == Ok <==>
      && i.buffer.pBuf && i.buffer.kind == ImageBuffer && i.format in {3, 4}
      && i.stride[0] == i.width * (if i.format == 3 then 1 else 2) % 0x1_0000_0000
      && i.batchSize <= 1 && i.height % 2 == 0 && i.width % 2 == 0
    ensures !i.buffer.pBuf ==> TensorStatus(i) == InvalidBuf && LumaChromaStatus(i) == InvalidBuf
    ensures i.buffer.pBuf ==> TensorStatus(i) in {Ok, Unsupported} && LumaChromaStatus(i) in {Ok, Unsupported}
  {
  }

  /** What the tensors are of: the whole batch as bytes of all channels; luma with one channel and chroma with two, at
      half the width and height, in samples of one or two bytes. */
  lemma TensorsAre(i: Image)
    ensures TensorStatus(i) == Ok ==>
      var t := AsTensor(i);
      && t.dims == [i.batchSize, i.height, i.width, if i.format == 2 then 2 else 3] && t.tensorType == Fixed8
      && t.buffer.kind == TensorBuffer && t.buffer.offset == i.buffer.offset && t.buffer.size == i.buffer.size
      && t.buffer.pBuf == i.buffer.pBuf
    ensures LumaChromaStatus(i) == Ok ==>
      var l, c := AsLuma(i), AsChroma(i);
      && l.dims == [1, i.height, i.width, 1] && c.dims == [1, i.height / 2, i.width / 2, 2]
      && l.tensorType == c.tensorType == (if i.format == 3 then Fixed8 else Fixed16)
      && l.buffer.offset == i.buffer.offset && l.buffer.size == c.buffer.size == i.buffer.size
      && c.buffer.offset == (i.buffer.offset + i.planeBufSize[0]) % 0x1_0000_0000_0000_0000
      && l.buffer.kind == c.buffer.kind == TensorBuffer
  {
  }

  /** When a slice of a batch is taken. */
  lemma SlicedIff(i: Image, batchOffset: UInt32, batchSize: UInt32)
    ensures SliceStatus(i, batchOffset, batchSize) == Ok <==>
      && i.buffer.pBuf && i.buffer.kind == ImageBuffer
      && batchOffset < i.batchSize && batchOffset + batchSize <= i.batchSize
    ensures !i.buffer.pBuf ==> SliceStatus(i, batchOffset, batchSize) == InvalidBuf
    ensures i.buffer.pBuf && i.buffer.kind != ImageBuffer ==> SliceStatus(i, batchOffset, batchSize) == Unsupported
    ensures i.buffer.pBuf && i.buffer.kind == ImageBuffer ==>
      SliceStatus(i, batchOffset, batchSize) in {Ok, BadArguments}
  {
  }

  /** The size written back: that of one plane for a compressed image, whatever the batch; else the sum of the planes,
      each as given or as rows times stride, for every image of the batch. */
  lemma SizeIs(p: Props)
    requires PropsOk(p)
    ensures p.format >= 100 ==> ImageSize(p) == p.planeBufSize[0]
    ensures p.format in {0, 1, 2} ==> ImageSize(p) == PlaneBytes(p, 0) * p.batchSize % 0x1_0000_0000_0000_0000
    ensures p.format in {3, 4} ==>
      ImageSize(p) == (PlaneBytes(p, 0) + PlaneBytes(p, 1)) * p.batchSize % 0x1_0000_0000_0000_0000
    ensures p.format in {5, 6} ==>
      ImageSize(p) == (PlaneBytes(p, 0) + PlaneBytes(p, 1) + PlaneBytes(p, 2) + PlaneBytes(p, 3)) * p.batchSize
        % 0x1_0000_0000_0000_0000
    ensures forall k :: 0 <= k < 4 ==> NotedSize(p, k) == PlaneBytes(p, k) % 0x1_0000_0000
  {
    AcceptedIff(p);
    hide FormatHolds, PropsOk;
    SumsAre(p);
    PlanesAreGiven(p);
  }

  lemma PlanesAreGiven(p: Props)
    requires PropsOk(p)
    ensures p.format in {0, 1, 2} ==> p.numPlanes == 1
    ensures p.format in {3, 4} ==> p.numPlanes == 2
    ensures p.format in {5, 6} ==> p.numPlanes == 4
  {
  }

  function PlaneBytes(p: Props, k: nat): nat
    requires k < 4
  {
    if p.planeBufSize[k] > 0 then p.planeBufSize[k] else p.stride[k] as int * p.actualHeight[k]
  }

  lemma SumsAre(p: Props)
    ensures PlaneSizes(p, 1) == PlaneBytes(p, 0) && PlaneSizes(p, 2) == PlaneBytes(p, 0) + PlaneBytes(p, 1)
    ensures PlaneSizes(p, 4) == PlaneBytes(p, 0) + PlaneBytes(p, 1) + PlaneBytes(p, 2) + PlaneBytes(p, 3)
  {
    assert PlaneSizes(p, 0) == 0;
    assert PlaneSizes(p, 3) == PlaneSizes(p, 2) + PlaneSize(p, 2);
  }
}
