/** RGB to YUV conversion: the samples of one pixel and where they belong in a planar image. */
module ColourSpec {
  import opened QCDefs

  datatype Pixel = Pixel(r: UInt8, g: UInt8, b: UInt8)

  function LumaSum(p: Pixel): int { 66 * p.r + 129 * p.g + 25 * p.b + 128 }
  function USum(p: Pixel): int { -38 * p.r - 74 * p.g + 112 * p.b + 128 }
  function VSum(p: Pixel): int { 112 * p.r - 94 * p.g - 18 * p.b + 128 }

  /** RgbToYuv; the source's `>> 8` of a negative number rounds down, as division by 256 does here. */
  function Y8(p: Pixel): UInt8 { Wrap8(LumaSum(p) / 256 + 16) }
  function U8(p: Pixel): UInt8 { Wrap8(USum(p) / 256 + 128) }
  function V8(p: Pixel): UInt8 { Wrap8(VSum(p) / 256 + 128) }

  /** `x &= 0xFFC0` on 16 bits. */
  function ClearLow6(x: UInt16): UInt16 { x / 64 * 64 }

  /** RgbToYuv10. */
  function Y10(p: Pixel): UInt16 { ClearLow6(Wrap16(LumaSum(p) + 16 * 256)) }
  function U10(p: Pixel): UInt16 { ClearLow6(Wrap16(USum(p) + 128 * 256)) }
  function V10(p: Pixel): UInt16 { ClearLow6(Wrap16(VSum(p) + 128 * 256)) }

  function PixelAt(rgb: seq<UInt8>, i: nat): Pixel
    requires 3 * i + 2 < |rgb|
  {
    Pixel(rgb[3 * i], rgb[3 * i + 1], rgb[3 * i + 2])
  }

  /** The three functions that make a planar format: luma, and the two interleaved chroma samples. */
  datatype Format<!T> = Format(luma: Pixel -> T, first: Pixel -> T, second: Pixel -> T)

  const NV12: Format<UInt8> := Format(Y8, U8, V8)
  const NV21: Format<UInt8> := Format(Y8, V8, U8)
  const P010: Format<UInt16> := Format(Y10, U10, V10)

  /** The pixel the chroma pair of block column c of block row r comes from: the lower right one of its block. */
  function BlockPixel(width: nat, r: nat, c: nat): nat {
    (2 * r + 1) * width + 2 * c + 1
  }

  /** The pixel the chroma sample with offset t in the chroma plane comes from. */
  function ChromaPixel(width: nat, t: nat): nat
    requires width > 0
  {
    BlockPixel(width, t / width, t % width / 2)
  }

  ghost predicate EvenImage(rgb: seq<UInt8>, width: nat, height: nat) {
    width % 2 == 0 && height % 2 == 0 && |rgb| == 3 * (width * height)
  }

  /** The chroma sample with offset t. */
  ghost predicate ChromaIs<T(!new)>(f: Format<T>, rgb: seq<UInt8>, width: nat, ySize: nat, sample: T, t: nat)
    requires |rgb| == 3 * ySize
  {
    && width > 0 && ChromaPixel(width, t) < ySize
    && sample == (if t % 2 == 0 then f.first else f.second)(PixelAt(rgb, ChromaPixel(width, t)))
  }

  /** samples holds the planar image: the luma of all pixels in order, then the chroma samples. */
  ghost predicate Planar<T(!new)>(f: Format<T>, rgb: seq<UInt8>, width: nat, ySize: nat, samples: seq<T>)
    requires |rgb| == 3 * ySize
  {
    && 2 * |samples| >= 3 * ySize
    && (forall j :: 0 <= j < ySize ==> samples[j] == f.luma(PixelAt(rgb, j)))
    && (forall j :: ySize <= j && 2 * j < 3 * ySize ==> ChromaIs(f, rgb, width, ySize, samples[j], j - ySize))
  }
}
