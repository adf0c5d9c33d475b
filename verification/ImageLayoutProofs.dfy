/** Conversions that move no sample, slices that tile a batch, and sizes that add up. */
module ImageLayoutProofs {
  import opened QCDefs
  import Bytes
  import opened ImageLayoutSpec

  lemma Distribute(b: int, y: int, x: int, h: int, w: int, e: int)
    ensures ((b * h + y) * w + x) * e == b * (h * (w * e)) + y * (w * e) + x * e
  {
    calc {
      ((b * h + y) * w + x) * e;
      (b * h + y) * w * e + x * e;
    == { assert (b * h + y) * w * e == (b * h + y) * (w * e); }
      (b * h + y) * (w * e) + x * e;
      b * h * (w * e) + y * (w * e) + x * e;
    == { assert b * h * (w * e) == b * (h * (w * e)); }
      b * (h * (w * e)) + y * (w * e) + x * e;
    }
  }

  lemma WrapIs(x: nat)
    ensures Wrap32(x) == x <==> x < U32
    ensures Wrap64(x) == x <==> x < U64
  {
  }

  // ---------------------------------------------------------------- one plane

  /** No sample of the image moves when the image is taken for a tensor. */
  ghost predicate SamePlaces(i: Image)
    requires OnePlane(i.format)
  {
    forall b: nat, y: nat, x: nat, c: nat :: InTensor(AsTensor(i), b, y, x, c) ==>
      SampleAt(i.buffer.offset, i.planeBufSize[0], i.stride[0], BytesPerPixel(i.format), b, y, x, c)
        == ElementAt(AsTensor(i), b, y, x, c)
  }

  /** The 32-bit products that the checks compute are the true ones wherever a row or an image follows another. */
  ghost predicate ProductsFit(i: Image)
    requires OnePlane(i.format)
  {
    var row := i.width * BytesPerPixel(i.format);
    || i.batchSize == 0 || i.height == 0 || i.width == 0
    || ((i.height == 1 || row < U32) && (i.batchSize == 1 || i.height * row < U32))
  }

  /** ImageToTensor moves no sample of an accepted image, exactly when the products fit 32 bits. */
  lemma ImageToTensorMovesNothing(i: Image)
    requires TensorStatus(i) == Ok
    ensures SamePlaces(i) <==> ProductsFit(i)
  {
    var t, bpp := AsTensor(i), BytesPerPixel(i.format);
    var row := i.width * bpp;
    WrapIs(row);
    if ProductsFit(i) {
      forall b: nat, y: nat, x: nat, c: nat | InTensor(t, b, y, x, c)
        ensures SampleAt(i.buffer.offset, i.planeBufSize[0], i.stride[0], bpp, b, y, x, c) == ElementAt(t, b, y, x, c)
      {
        OnePlaneSample(i, b, y, x, c);
      }
    } else {
      if i.height > 1 && row >= U32 {
        Distribute(0, 1, 0, i.height, i.width, bpp);
        assert InTensor(t, 0, 1, 0, 0);
        assert SampleAt(i.buffer.offset, i.planeBufSize[0], i.stride[0], bpp, 0, 1, 0, 0) != ElementAt(t, 0, 1, 0, 0);
      } else {
        Distribute(1, 0, 0, i.height, i.width, bpp);
        assert InTensor(t, 1, 0, 0, 0);
        assert SampleAt(i.buffer.offset, i.planeBufSize[0], i.stride[0], bpp, 1, 0, 0, 0) != ElementAt(t, 1, 0, 0, 0);
      }
    }
  }

  lemma OnePlaneSample(i: Image, b: nat, y: nat, x: nat, c: nat)
    requires TensorStatus(i) == Ok && ProductsFit(i) && InTensor(AsTensor(i), b, y, x, c)
    ensures SampleAt(i.buffer.offset, i.planeBufSize[0], i.stride[0], BytesPerPixel(i.format), b, y, x, c)
      == ElementAt(AsTensor(i), b, y, x, c)
  {
    hide ProductsFit, SampleAt, ElementAt;
    PackedIs(i);
    ElementIs(i, b, y, x, c);
    SampleIs(i.buffer.offset, i.planeBufSize[0], i.stride[0], b, y, x, c, i.height, i.width, BytesPerPixel(i.format));
  }

  lemma ElementIs(i: Image, b: nat, y: nat, x: nat, c: nat)
    requires OnePlane(i.format)
    ensures ElementAt(AsTensor(i), b, y, x, c) ==
      i.buffer.offset + (((b * i.height + y) * i.width + x) * BytesPerPixel(i.format) + c) * 1
  {
    hide Wrap64, BytesPerPixel;
  }

  /** What the checks establish about strides and plane sizes. */
  lemma PackedIs(i: Image)
    requires TensorStatus(i) == Ok && ProductsFit(i) && i.batchSize > 0 && i.height > 0 && i.width > 0
    ensures i.height == 1 || i.stride[0] == i.width as int * BytesPerPixel(i.format)
    ensures i.batchSize == 1 || i.planeBufSize[0] == i.height as int * (i.width * BytesPerPixel(i.format))
  {
    var h, row := i.height as int, i.width as int * BytesPerPixel(i.format);
    WrapIs(row);
    if i.batchSize > 1 {
      RowFits(h, row);
      WrapIs(h * row);
      assert i.stride[0] * h == h * row;
    }
  }

  lemma RowFits(h: int, row: int)
    requires h > 0 && row >= 0
    ensures row <= h * row
  {
  }

  lemma SampleIs(start: int, perImage: int, stride: int, b: nat, y: nat, x: nat, c: nat, h: int, w: int, bpp: int)
    requires (y == 0 || stride == w * bpp) && (b == 0 || perImage == h * (w * bpp))
    ensures SampleAt(start, perImage, stride, bpp, b, y, x, c) == start + (((b * h + y) * w + x) * bpp + c) * 1
  {
    Distribute(b, y, x, h, w, bpp);
  }

  function Volume(t: Tensor): int
    requires |t.dims| == 4
  {
    Product(t.dims[0], t.dims[1], t.dims[2], t.dims[3]) * ElementSize(t.tensorType)
  }

  /** The dimensions account for the valid bytes, exactly when those can be counted in 64 bits. */
  lemma TensorVolume(i: Image)
    requires TensorStatus(i) == Ok
    ensures AsTensor(i).buffer.validSize == Volume(AsTensor(i)) <==> Volume(AsTensor(i)) < U64
  {
    hide BytesPerPixel, Wrap64, Product;
    WrapIs(Product(i.batchSize, i.height, i.width, BytesPerPixel(i.format)));
  }

  // ---------------------------------------------------------------- luma and chroma

  /** Samples of bpp bytes; only their first bytes are compared. */
  ghost predicate LumaSamePlaces(i: Image)
    requires TwoPlanes(i.format)
  {
    forall y: nat, x: nat :: InTensor(AsLuma(i), 0, y, x, 0) ==>
      SampleAt(i.buffer.offset, 0, i.stride[0], BytesPerPixel(i.format), 0, y, x, 0) == ElementAt(AsLuma(i), 0, y, x, 0)
  }

  /** Chroma pairs; the second plane starts behind the first, and its rows are stride[1] apart. */
  ghost predicate ChromaSamePlaces(i: Image)
    requires TwoPlanes(i.format)
  {
    var bpp := BytesPerPixel(i.format);
    forall y: nat, x: nat, c: nat :: InTensor(AsChroma(i), 0, y, x, c) ==>
      SampleAt(i.buffer.offset + i.planeBufSize[0], 0, i.stride[1], 2 * bpp, 0, y, x, c * bpp)
        == ElementAt(AsChroma(i), 0, y, x, c)
  }

  lemma LumaMovesNothing(i: Image)
    requires LumaChromaStatus(i) == Ok
    ensures LumaSamePlaces(i) <==> i.height == 0 || i.width == 0 || i.width * BytesPerPixel(i.format) < U32
  {
    var t, bpp := AsLuma(i), BytesPerPixel(i.format);
    WrapIs(i.width * bpp);
    forall y: nat, x: nat ensures ElementAt(t, 0, y, x, 0) == i.buffer.offset + y * (i.width * bpp) + x * bpp {
      Distribute(0, y, x, i.height, i.width, bpp);
    }
    if i.height != 0 && i.width != 0 && i.width * bpp >= U32 {
      assert InTensor(t, 0, 1, 0, 0);
      assert SampleAt(i.buffer.offset, 0, i.stride[0], bpp, 0, 1, 0, 0) != ElementAt(t, 0, 1, 0, 0);
    }
  }

  /** The stride of the chroma plane is never checked: it has to be that of the packed luma plane, if there are rows
      that follow another. */
  lemma ChromaMovesNothing(i: Image)
    requires LumaChromaStatus(i) == Ok && i.buffer.offset + i.planeBufSize[0] < U64
    ensures ChromaSamePlaces(i) <==> i.height <= 2 || i.width == 0 || i.stride[1] == i.width * BytesPerPixel(i.format)
  {
    var t, bpp := AsChroma(i), BytesPerPixel(i.format);
    var start := i.buffer.offset + i.planeBufSize[0];
    var row := i.width * bpp;
    WrapIs(start);
    forall y: nat, x: nat, c: nat ensures ElementAt(t, 0, y, x, c) == start + y * row + x * (2 * bpp) + c * bpp {
      ChromaElement(y, x, c, i.width / 2, bpp);
      assert (i.width / 2) * (2 * bpp) == row by {
        assert i.width == 2 * (i.width / 2);
      }
    }
    if i.height > 2 && i.width != 0 && i.stride[1] != row {
      assert InTensor(t, 0, 1, 0, 0);
      assert SampleAt(start, 0, i.stride[1], 2 * bpp, 0, 1, 0, 0) != ElementAt(t, 0, 1, 0, 0);
    }
  }

  lemma ChromaElement(y: int, x: int, c: int, half: int, bpp: int)
    ensures ((y * half + x) * 2 + c) * bpp == y * (half * (2 * bpp)) + x * (2 * bpp) + c * bpp
  {
    Distribute(0, y, x, 0, half, 2 * bpp);
    assert ((y * half + x) * 2 + c) * bpp == (y * half + x) * (2 * bpp) + c * bpp;
  }

  /** Both tensors account for their valid bytes, and the chroma is half of the luma. */
  lemma LumaChromaVolume(i: Image)
    requires LumaChromaStatus(i) == Ok && i.height * i.width * BytesPerPixel(i.format) < U64
    ensures AsLuma(i).buffer.validSize == Volume(AsLuma(i))
    ensures AsChroma(i).buffer.validSize == Volume(AsChroma(i))
    ensures AsLuma(i).buffer.validSize == 2 * AsChroma(i).buffer.validSize
  {
    var h, w, bpp := i.height / 2, i.width / 2, BytesPerPixel(i.format);
    assert i.height * i.width == 4 * (h * w) by {
      assert i.height == 2 * h && i.width == 2 * w;
      assert (2 * h) * (2 * w) == 4 * (h * w);
    }
    assert i.height * i.width * bpp == 4 * (h * w * bpp);
    WrapIs(i.height * i.width * bpp);
    assert 1 * h * w * 2 * bpp == 2 * (h * w * bpp);
  }

  predicate Holds(b: Buffer, p: int) { b.offset <= p < b.offset + b.validSize }

  ghost predicate Overlap(a: Buffer, b: Buffer) { exists p: int :: Holds(a, p) && Holds(b, p) }

  /** The luma and the chroma bytes are apart exactly when the first plane holds the whole luma. */
  lemma LumaChromaApart(i: Image)
    requires LumaChromaStatus(i) == Ok && i.height * i.width * BytesPerPixel(i.format) < U64
    requires i.buffer.offset + i.planeBufSize[0] < U64
    ensures !Overlap(AsLuma(i).buffer, AsChroma(i).buffer) <==>
      i.planeBufSize[0] >= i.height * i.width * BytesPerPixel(i.format)
  {
    LumaChromaVolume(i);
    WrapIs(i.buffer.offset + i.planeBufSize[0]);
    WrapIs(i.height * i.width * BytesPerPixel(i.format));
    ApartIff(AsLuma(i).buffer, AsChroma(i).buffer);
  }

  /** Two stretches, the longer first. */
  lemma ApartIff(a: Buffer, b: Buffer)
    requires a.offset <= b.offset && (a.validSize > 0 ==> b.validSize > 0)
    ensures !Overlap(a, b) <==> b.offset - a.offset >= a.validSize
  {
    if b.offset - a.offset < a.validSize {
      assert Holds(a, b.offset) && Holds(b, b.offset);
    }
  }

  // ---------------------------------------------------------------- slices

  function SliceOf(i: Image, batchOffset: UInt32, batchSize: UInt32): Buffer
    requires i.batchSize > 0
  {
    var single := SingleSize(i);
    i.buffer.(validSize := Wrap64(batchSize * single), offset := Wrap64(i.buffer.offset + batchOffset * single))
  }

  lemma SliceIs(i: Image, batchOffset: UInt32, batchSize: UInt32)
    requires SliceStatus(i, batchOffset, batchSize) == Ok && i.buffer.offset + i.buffer.size < U64
    ensures
      && var slice := SliceOf(i, batchOffset, batchSize);
      && slice.validSize == batchSize * SingleSize(i)
      && slice.offset == i.buffer.offset + batchOffset * SingleSize(i)
      && slice.offset + slice.validSize == i.buffer.offset + (batchOffset + batchSize) * SingleSize(i)
      && slice.offset + slice.validSize <= i.buffer.offset + i.buffer.size
  {
    var single := SingleSize(i);
    assert batchOffset * single + batchSize * single == (batchOffset + batchSize) * single;
    assert (batchOffset + batchSize) * single <= i.batchSize * single;
    assert i.batchSize * single <= i.buffer.size;
    WrapIs(batchSize * single);
    WrapIs(i.buffer.offset + batchOffset * single);
  }

  /** Cutting points of a batch: from 0 to the whole, and increasing. */
  ghost predicate Cuts(i: Image, cuts: seq<UInt32>) {
    && i.batchSize > 0 && |cuts| >= 2 && cuts[0] == 0 && cuts[|cuts| - 1] == i.batchSize
    && forall j, k :: 0 <= j < k < |cuts| ==> cuts[j] < cuts[k]
  }

  function Piece(i: Image, cuts: seq<UInt32>, k: nat): Buffer
    requires Cuts(i, cuts) && k + 1 < |cuts|
  {
    SliceOf(i, cuts[k], cuts[k + 1] - cuts[k])
  }

  /** The slices between cutting points are all accepted and follow each other without gap or overlap from the start of
      the buffer; they fill it exactly when its size is a multiple of the batch size. */
  lemma SlicesTile(i: Image, cuts: seq<UInt32>)
    requires i.buffer.pBuf && i.buffer.kind == ImageBuffer && i.buffer.offset + i.buffer.size < U64 && Cuts(i, cuts)
    ensures forall k :: 0 <= k < |cuts| - 1 ==> SliceStatus(i, cuts[k], cuts[k + 1] - cuts[k]) == Ok
    ensures Piece(i, cuts, 0).offset == i.buffer.offset
    ensures forall k :: 0 <= k < |cuts| - 2 ==>
      Piece(i, cuts, k).offset + Piece(i, cuts, k).validSize == Piece(i, cuts, k + 1).offset
    ensures
      && var last := Piece(i, cuts, |cuts| - 2);
      && (last.offset + last.validSize == i.buffer.offset + i.buffer.size <==> i.buffer.size % i.batchSize == 0)
  {
    hide SliceStatus, Piece, Boundary, SingleSize;
    BoundaryEnds(i);
    forall k | 0 <= k < |cuts| - 1
      ensures SliceStatus(i, cuts[k], cuts[k + 1] - cuts[k]) == Ok
      ensures Piece(i, cuts, k).offset == Boundary(i, cuts[k])
      ensures Piece(i, cuts, k).offset + Piece(i, cuts, k).validSize == Boundary(i, cuts[k + 1])
    {
      PieceIs(i, cuts, k);
    }
  }

  /** Where image number q of the batch starts. */
  function Boundary(i: Image, q: nat): int
    requires i.batchSize > 0
  {
    i.buffer.offset + q * SingleSize(i)
  }

  lemma BoundaryEnds(i: Image)
    requires i.batchSize > 0
    ensures Boundary(i, 0) == i.buffer.offset
    ensures Boundary(i, i.batchSize) == i.buffer.offset + i.buffer.size <==> i.buffer.size % i.batchSize == 0
  {
    assert i.buffer.size == i.batchSize * SingleSize(i) + i.buffer.size % i.batchSize;
  }

  lemma PieceIs(i: Image, cuts: seq<UInt32>, k: nat)
    requires i.buffer.pBuf && i.buffer.kind == ImageBuffer && i.buffer.offset + i.buffer.size < U64
    requires Cuts(i, cuts) && k + 1 < |cuts|
    ensures SliceStatus(i, cuts[k], cuts[k + 1] - cuts[k]) == Ok
    ensures Piece(i, cuts, k).offset == Boundary(i, cuts[k])
    ensures Piece(i, cuts, k).offset + Piece(i, cuts, k).validSize == Boundary(i, cuts[k + 1])
  {
    hide SingleSize, SliceOf;
    assert cuts[k] < cuts[k + 1] <= cuts[|cuts| - 1];
    SliceIs(i, cuts[k], cuts[k + 1] - cuts[k]);
  }

  // ---------------------------------------------------------------- sizes from properties

  lemma {:induction false} NotedAtMost(p: Props, n: nat)
    requires n <= NUM_PLANES
    ensures NotedSizes(p, n) <= PlaneSizes(p, n)
    ensures NotedSizes(p, n) == PlaneSizes(p, n) <==> forall k :: 0 <= k < n ==> PlaneSize(p, k) < U32
  {
    if n > 0 {
      NotedAtMost(p, n - 1);
      WrapIs(PlaneSize(p, n - 1));
      assert NotedSize(p, n - 1) <= PlaneSize(p, n - 1);
    }
  }

  /** The size of an accepted uncompressed image is the batch size times the sum of its descriptor's plane sizes,
      exactly when no plane size that had to be computed is too large for 32 bits. */
  lemma SizeAddsUp(p: Props)
    requires PropsOk(p) && Uncompressed(p.format) && PlaneSizes(p, p.numPlanes) * p.batchSize < U64
    ensures ImageSize(p) == p.batchSize * NotedSizes(p, p.numPlanes) <==>
      forall k :: 0 <= k < p.numPlanes ==> p.planeBufSize[k] != 0 || p.stride[k] as int * p.actualHeight[k] < U32
  {
    var sum, noted := PlaneSizes(p, p.numPlanes), NotedSizes(p, p.numPlanes);
    NotedAtMost(p, p.numPlanes);
    SameProduct(sum, noted, p.batchSize);
    FitsIff(p);
  }

  lemma SameProduct(a: nat, b: nat, n: nat)
    requires n > 0 && a * n < U64
    ensures Wrap64(a * n) == n * b <==> a == b
  {
    WrapIs(a * n);
    assert a * n - b * n == (a - b) * n;
  }

  lemma FitsIff(p: Props)
    requires p.numPlanes <= NUM_PLANES
    ensures (forall k :: 0 <= k < p.numPlanes ==> PlaneSize(p, k) < U32) <==>
      forall k :: 0 <= k < p.numPlanes ==> p.planeBufSize[k] != 0 || p.stride[k] as int * p.actualHeight[k] < U32
  {
    if forall k :: 0 <= k < p.numPlanes ==> PlaneSize(p, k) < U32 {
      forall k | 0 <= k < p.numPlanes ensures p.planeBufSize[k] != 0 || p.stride[k] as int * p.actualHeight[k] < U32 {
        assert PlaneSize(p, k) < U32;
      }
    }
  }

  /** So the slices of such an image fill it, and each single image has room for all planes of the descriptor. */
  lemma AcceptedImageTiles(p: Props, i: Image, cuts: seq<UInt32>)
    requires PropsOk(p) && Uncompressed(p.format) && PlaneSizes(p, p.numPlanes) * p.batchSize < U64
    requires forall k :: 0 <= k < p.numPlanes ==> p.planeBufSize[k] != 0 || p.stride[k] as int * p.actualHeight[k] < U32
    requires i.buffer.pBuf && i.buffer.kind == ImageBuffer
    requires i.buffer.size == ImageSize(p) && i.batchSize == p.batchSize
    requires i.buffer.offset + i.buffer.size < U64 && Cuts(i, cuts)
    ensures SingleSize(i) == NotedSizes(p, p.numPlanes)
    ensures
      && var last := Piece(i, cuts, |cuts| - 2);
      && last.offset + last.validSize == i.buffer.offset + p.batchSize * NotedSizes(p, p.numPlanes)
  {
    SizeAddsUp(p);
    Divides(p.batchSize, NotedSizes(p, p.numPlanes));
    SlicesTile(i, cuts);
  }

  lemma Divides(b: nat, s: nat)
    requires b > 0
    ensures (b * s) / b == s && (b * s) % b == 0
  {
    Bytes.DivisionUnique(b * s, b, s, 0);
  }

  // ---------------------------------------------------------------- images that are accepted and do not fit

  /** A descriptor with one stride, height and size for each of two planes. */
  function Example(format: int, width: UInt32, height: UInt32, first: UInt32, second: UInt32, size: UInt32): Image {
    Image(Buffer(true, ImageBuffer, 0, 0, 0), format, 1, width, height, if format == RGB888 then 1 else 2,
          [first, second, 0, 0], [height, height, 0, 0], [size, size, 0, 0])
  }

  /** A row of 0x5555_5556 pixels has two bytes in 32 bits. */
  lemma WideImageMoves()
    ensures
      && var i := Example(RGB888, 0x5555_5556, 2, 2, 0, 4);
      && TensorStatus(i) == Ok && !SamePlaces(i)
  {
    ImageToTensorMovesNothing(Example(RGB888, 0x5555_5556, 2, 2, 0, 4));
  }

  /** And one of 0x8000_0002 pixels of two bytes has four. */
  lemma WideLumaMoves()
    ensures
      && var i := Example(P010, 0x8000_0002, 2, 4, 4, 8);
      && LumaChromaStatus(i) == Ok && !LumaSamePlaces(i)
  {
    LumaMovesNothing(Example(P010, 0x8000_0002, 2, 4, 4, 8));
  }

  /** A small image whose chroma rows are padded. */
  lemma PaddedChromaMoves()
    ensures
      && var i := Example(NV12, 4, 4, 4, 8, 16);
      && LumaChromaStatus(i) == Ok && LumaSamePlaces(i) && !ChromaSamePlaces(i)
  {
    LumaMovesNothing(Example(NV12, 4, 4, 4, 8, 16));
    ChromaMovesNothing(Example(NV12, 4, 4, 4, 8, 16));
  }

  /** A plane of 2^32 bytes is counted into the size and noted as empty. */
  lemma LargePlaneIsLost()
    ensures
      && var p := Props(RGB888, 1, 1, 1, 1, [0x1_0000, 0, 0, 0], [0x1_0000, 0, 0, 0], [0, 0, 0, 0]);
      && PropsOk(p) && ImageSize(p) == U32 && NotedSizes(p, p.numPlanes) == 0
  {
    var p := Props(RGB888, 1, 1, 1, 1, [0x1_0000, 0, 0, 0], [0x1_0000, 0, 0, 0], [0, 0, 0, 0]);
    assert PlaneSize(p, 0) == U32 && NotedSize(p, 0) == 0;
    assert PlaneSizes(p, 0) == 0 && NotedSizes(p, 0) == 0;
    SizeAddsUp(p);
  }
}
