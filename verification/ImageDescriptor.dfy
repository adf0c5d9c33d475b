/** The descriptors as objects whose fields the conversions assign one by one. */
module ImageDescriptorModule {
  import opened QCDefs
  import opened ImageLayoutSpec
  import opened ImageLayoutProofs

  const NUM_DIMS: nat := 8

  class TensorDescriptor {
    var buffer: Buffer
    var tensorType: TensorType
    var numDims: UInt32
    var dims: seq<UInt32>

    ghost predicate Valid()
      reads this
    {
      |dims| == NUM_DIMS && numDims <= NUM_DIMS
    }

    ghost function Abs(): Tensor
      reads this
      requires Valid()
    {
      Tensor(buffer, tensorType, dims[..numDims])
    }
  }

  /** The planes of a descriptor that are in use; there is room for four. */
  function PlanesIn(numPlanes: UInt32): UInt32 { if numPlanes <= NUM_PLANES then numPlanes else NUM_PLANES }

  class ImageDescriptor {
    var buffer: Buffer
    var format: int
    var batchSize: UInt32
    var width: UInt32
    var height: UInt32
    var numPlanes: UInt32
    var stride: Planes
    var actualHeight: Planes
    var planeBufSize: Planes

    ghost function Abs(): Image
      reads this
    {
      Image(buffer, format, batchSize, width, height, numPlanes, stride, actualHeight, planeBufSize)
    }

    /** The form for images with one plane. */
    method ImageToTensor(tensorDesc: TensorDescriptor) returns (status: Status)
      requires tensorDesc.Valid()
      modifies tensorDesc
      ensures tensorDesc.Valid()
      ensures status == TensorStatus(Abs())
      ensures status == Ok ==> tensorDesc.Abs() == AsTensor(Abs())
      ensures status != Ok ==> unchanged(tensorDesc)
    {
      if !buffer.pBuf {
        return InvalidBuf;
      }
      if buffer.kind != ImageBuffer || !OnePlane(format) {
        return Unsupported;
      }
      var bpp := BytesPerPixel(format);
      if stride[0] != Wrap32(width * bpp) {
        return Unsupported;
      } else if batchSize > 1 && actualHeight[0] != height {
        return Unsupported;
      } else if batchSize > 1 && planeBufSize[0] != Wrap32(stride[0] * height) {
        return Unsupported;
      }
      tensorDesc.buffer := buffer;
      tensorDesc.buffer := tensorDesc.buffer.(kind := TensorBuffer);
      tensorDesc.tensorType := Fixed8;
      SetDims(tensorDesc, batchSize, height, width, bpp);
      tensorDesc.buffer := tensorDesc.buffer.(validSize := Wrap64(Product(batchSize, height, width, bpp)));
      return Ok;
    }

    /** The form for a luma and a chroma plane. One descriptor passed for both ends up as that of the chroma plane. */
    method ImageToLumaChroma(luma: TensorDescriptor, chroma: TensorDescriptor) returns (status: Status)
      requires luma.Valid() && chroma.Valid()
      modifies luma, chroma
      ensures luma.Valid() && chroma.Valid()
      ensures status == LumaChromaStatus(Abs())
      ensures status == Ok ==> chroma.Abs() == AsChroma(Abs()) && (luma != chroma ==> luma.Abs() == AsLuma(Abs()))
      ensures status != Ok ==> unchanged(luma, chroma)
    {
      if !buffer.pBuf {
        return InvalidBuf;
      }
      if buffer.kind != ImageBuffer || !TwoPlanes(format) {
        return Unsupported;
      }
      var bpp := BytesPerPixel(format);
      if stride[0] != Wrap32(width * bpp) {
        return Unsupported;
      } else if batchSize > 1 {
        return Unsupported;
      } else if height % 2 != 0 {
        return Unsupported;
      } else if width % 2 != 0 {
        return Unsupported;
      }
      var elements := if format == NV12 then Fixed8 else Fixed16;
      luma.buffer := buffer.(kind := TensorBuffer);
      luma.tensorType := elements;
      SetDims(luma, 1, height, width, 1);
      luma.buffer := luma.buffer.(validSize := Wrap64(height * width * bpp));
      chroma.buffer := buffer.(kind := TensorBuffer, offset := Wrap64(buffer.offset + planeBufSize[0]));
      chroma.tensorType := elements;
      SetDims(chroma, 1, height / 2, width / 2, 2);
      chroma.buffer := chroma.buffer.(validSize := Wrap64(height * width * bpp) / 2);
      return Ok;
    }

    /** Images batchOffset to batchOffset + batchSize of the batch. The descriptor may be sliced into itself. */
    method GetImageDesc(imageDesc: ImageDescriptor, batchOffset: UInt32, batchSize: UInt32) returns (status: Status)
      modifies imageDesc
      ensures status == SliceStatus(old(Abs()), batchOffset, batchSize)
      ensures status == Ok ==>
        && imageDesc.buffer == SliceOf(old(Abs()), batchOffset, batchSize)
        && imageDesc.batchSize == batchSize
        && imageDesc.format == old(format) && imageDesc.width == old(width) && imageDesc.height == old(height)
        && imageDesc.numPlanes == (if imageDesc == this then old(numPlanes) else PlanesIn(old(numPlanes)))
        && imageDesc.stride[..PlanesIn(old(numPlanes))] == old(stride[..PlanesIn(numPlanes)])
        && imageDesc.actualHeight[..PlanesIn(old(numPlanes))] == old(actualHeight[..PlanesIn(numPlanes)])
        && imageDesc.planeBufSize[..PlanesIn(old(numPlanes))] == old(planeBufSize[..PlanesIn(numPlanes)])
      ensures status != Ok ==> unchanged(imageDesc)
    {
      if !buffer.pBuf {
        return InvalidBuf;
      } else if buffer.kind != ImageBuffer {
        return Unsupported;
      } else if batchOffset >= this.batchSize {
        return BadArguments;
      } else if batchSize > this.batchSize - batchOffset {
        return BadArguments;
      }
      imageDesc.Assign(this);
      var singleImageSize := this.buffer.size / this.batchSize;
      imageDesc.batchSize := batchSize;
      imageDesc.buffer := imageDesc.buffer.(validSize := Wrap64(batchSize * singleImageSize));
      imageDesc.buffer := imageDesc.buffer.(offset := Wrap64(buffer.offset + batchOffset * singleImageSize));
      return Ok;
    }

    /** operator=: the planes in use, at most four, are copied, and the others keep their values. */
    method Assign(other: ImageDescriptor)
      modifies this
      ensures this == other ==> unchanged(this)
      ensures this != other ==>
        var n := PlanesIn(other.numPlanes);
        && buffer == other.buffer.(kind := ImageBuffer)
        && format == other.format && batchSize == other.batchSize
        && width == other.width && height == other.height && numPlanes == n
        && stride == other.stride[..n] + old(stride)[n..]
        && actualHeight == other.actualHeight[..n] + old(actualHeight)[n..]
        && planeBufSize == other.planeBufSize[..n] + old(planeBufSize)[n..]
    {
      if this != other {
        buffer := other.buffer.(kind := ImageBuffer);
        format, batchSize, width, height := other.format, other.batchSize, other.width, other.height;
        var n := PlanesIn(other.numPlanes);
        stride := other.stride[..n] + stride[n..];
        actualHeight := other.actualHeight[..n] + actualHeight[n..];
        planeBufSize := other.planeBufSize[..n] + planeBufSize[n..];
        numPlanes := n;
      }
    }
  }

  method SetDims(t: TensorDescriptor, d0: UInt32, d1: UInt32, d2: UInt32, d3: UInt32)
    requires t.Valid()
    modifies t`numDims, t`dims
    ensures t.Valid() && t.numDims == 4 && t.dims[..4] == [d0, d1, d2, d3]
  {
    t.numDims := 4;
    t.dims := t.dims[0 := d0];
    t.dims := t.dims[1 := d1];
    t.dims := t.dims[2 := d2];
    t.dims := t.dims[3 := d3];
  }

  /** SetImageDescFromImageProp: the size is what is written back into the properties. */
  method SetImageDescFromImageProp(prop: Props, desc: ImageDescriptor) returns (status: Status, size: UInt64)
    modifies desc
    ensures status == if PropsOk(prop) then Ok else BadArguments
    ensures status == Ok ==>
      && size == ImageSize(prop)
      && desc.buffer == old(desc.buffer).(kind := ImageBuffer)
      && desc.format == prop.format && desc.batchSize == prop.batchSize
      && desc.width == prop.width && desc.height == prop.height && desc.numPlanes == prop.numPlanes
      && desc.numPlanes <= NUM_PLANES
      && forall k :: 0 <= k < prop.numPlanes ==>
           && desc.stride[k] == prop.stride[k] && desc.actualHeight[k] == prop.actualHeight[k]
           && desc.planeBufSize[k] == NotedSize(prop, k)
    ensures status != Ok ==> unchanged(desc)
  {
    hide PropsOk, ImageSize;
    var ok := CheckProps(prop);
    if !ok {
      return BadArguments, 0;
    }
    size := AddPlanes(prop);
    FillDesc(prop, desc);
    return Ok, size;
  }

  method CheckProps(prop: Props) returns (ok: bool)
    ensures ok <==> PropsOk(prop)
    ensures ok ==> prop.numPlanes <= NUM_PLANES
  {
    if prop.batchSize == 0 || prop.width == 0 || prop.height == 0 {
      return false;
    } else if FORMAT_MAX <= prop.format < COMPRESSED_MIN || prop.format >= COMPRESSED_MAX || prop.format < RGB888 {
      return false;
    } else if prop.format >= FORMAT_MAX {
      return prop.numPlanes == 1 && prop.planeBufSize[0] != 0;
    } else if PlanesOf(prop.format) != prop.numPlanes {
      return false;
    }
    hide PlaneOk;
    for i := 0 to prop.numPlanes
      invariant forall k :: 0 <= k < i ==> PlaneOk(prop, k)
    {
      if !PlaneOk(prop, i) {
        return false;
      }
    }
    return true;
  }

  /** The size of the whole batch, added up in 64 bits. */
  method AddPlanes(prop: Props) returns (size: UInt64)
    requires PropsOk(prop)
    ensures size == ImageSize(prop)
  {
    hide PlaneOk, Wrap64, PlaneSizes;
    if prop.format >= FORMAT_MAX {
      return prop.planeBufSize[0];
    }
    var sum := SumPlanes(prop);
    WrapProduct(PlaneSizes(prop, prop.numPlanes), prop.batchSize);
    size := Wrap64(sum * prop.batchSize);
  }

  method SumPlanes(prop: Props) returns (size: UInt64)
    requires prop.numPlanes <= NUM_PLANES
    ensures size == Wrap64(PlaneSizes(prop, prop.numPlanes))
  {
    hide Wrap64;
    size := 0;
    WrapSum(0, 0);
    for i := 0 to prop.numPlanes
      invariant size == Wrap64(PlaneSizes(prop, i))
    {
      WrapSum(PlaneSizes(prop, i), PlaneSize(prop, i));
      if prop.planeBufSize[i] != 0 {
        size := Wrap64(size + prop.planeBufSize[i]);
      } else {
        size := Wrap64(size + prop.stride[i] as int * prop.actualHeight[i]);
      }
    }
  }

  lemma WrapSum(a: nat, b: nat)
    ensures Wrap64(0) == 0 && Wrap64(Wrap64(a) + b) == Wrap64(a + b)
  {
  }

  method FillDesc(prop: Props, desc: ImageDescriptor)
    requires prop.numPlanes <= NUM_PLANES
    modifies desc
    ensures desc.buffer == old(desc.buffer).(kind := ImageBuffer)
    ensures desc.format == prop.format && desc.batchSize == prop.batchSize
    ensures desc.width == prop.width && desc.height == prop.height && desc.numPlanes == prop.numPlanes
    ensures forall k :: 0 <= k < prop.numPlanes ==>
      && desc.stride[k] == prop.stride[k] && desc.actualHeight[k] == prop.actualHeight[k]
      && desc.planeBufSize[k] == NotedSize(prop, k)
  {
    var n := prop.numPlanes;
    desc.buffer := desc.buffer.(kind := ImageBuffer);
    desc.format, desc.batchSize, desc.width, desc.height := prop.format, prop.batchSize, prop.width, prop.height;
    desc.numPlanes := n;
    desc.stride := prop.stride[..n] + desc.stride[n..];
    desc.actualHeight := prop.actualHeight[..n] + desc.actualHeight[n..];
    desc.planeBufSize := prop.planeBufSize[..n] + desc.planeBufSize[n..];
    for i := 0 to n
      invariant desc.buffer == old(desc.buffer).(kind := ImageBuffer)
      invariant desc.format == prop.format && desc.batchSize == prop.batchSize
      invariant desc.width == prop.width && desc.height == prop.height && desc.numPlanes == prop.numPlanes
      invariant forall k :: 0 <= k < n ==>
        desc.stride[k] == prop.stride[k] && desc.actualHeight[k] == prop.actualHeight[k]
      invariant forall k :: 0 <= k < i ==> desc.planeBufSize[k] == NotedSize(prop, k)
      invariant forall k :: i <= k < n ==> desc.planeBufSize[k] == prop.planeBufSize[k]
    {
      if desc.planeBufSize[i] == 0 {
        desc.planeBufSize := desc.planeBufSize[i := Wrap32(desc.stride[i] as int * desc.actualHeight[i])];
      }
    }
  }

  lemma WrapProduct(a: nat, b: nat)
    ensures Wrap64(Wrap64(a) * b) == Wrap64(a * b)
  {
    var q := a / U64;
    assert a * b == q * b * U64 + Wrap64(a) * b by {
      assert a == q * U64 + Wrap64(a);
    }
    ModPlus(q * b, Wrap64(a) * b);
  }

  lemma ModPlus(q: int, x: int)
    ensures (q * U64 + x) % U64 == x % U64
  {
  }
}
