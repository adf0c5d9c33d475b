/** The converters against ITU-R BT.601: what a pixel's samples are, in exact fractions and by coordinates. */
module ColourBt601 {
  import opened QCDefs
  import opened ColourSpec
  import opened ColourConvert
  import opened ColourProofs
  import opened ColourUyvy

  // ---- one pixel ----

  /** The sample lies less than one step from zero + (red*r + green*g + blue*b) / 255, the weights in thousandths. */
  predicate Within(sample: int, zero: int, red: int, green: int, blue: int, r: UInt8, g: UInt8, b: UInt8) {
    var off := 255_000 * (sample - zero) - (red * r + green * g + blue * b);
    -255_000 < off < 255_000
  }

  /** Rows of the BT.601 matrix for studio range. */
  predicate IsLuma(sample: int, r: UInt8, g: UInt8, b: UInt8) { Within(sample, 16, 65_481, 128_553, 24_966, r, g, b) }
  predicate IsCb(sample: int, r: UInt8, g: UInt8, b: UInt8) { Within(sample, 128, -37_797, -74_203, 112_000, r, g, b) }
  predicate IsCr(sample: int, r: UInt8, g: UInt8, b: UInt8) { Within(sample, 128, 112_000, -93_786, -18_214, r, g, b) }

  /** Each sample of each pixel lies within one step of BT.601. */
  lemma PixelIsBt601(r: UInt8, g: UInt8, b: UInt8)
    ensures IsLuma(Y8(Pixel(r, g, b)), r, g, b)
    ensures IsCb(U8(Pixel(r, g, b)), r, g, b)
    ensures IsCr(V8(Pixel(r, g, b)), r, g, b)
  {
    var p := Pixel(r, g, b);
    SamplesInRange(p);
    LumaNear(p);
    CbNear(p);
    CrNear(p);
  }

  lemma LumaNear(p: Pixel)
    ensures IsLuma(LumaSum(p) / 256 + 16, p.r, p.g, p.b)
  {
  }

  lemma CbNear(p: Pixel)
    ensures IsCb(USum(p) / 256 + 128, p.r, p.g, p.b)
  {
  }

  lemma CrNear(p: Pixel)
    ensures IsCr(VSum(p) / 256 + 128, p.r, p.g, p.b)
  {
  }

  /** Every grey has neutral chroma, and its luma runs from 16 to 235. */
  lemma GreyIsNeutral(v: UInt8)
    ensures U8(Pixel(v, v, v)) == 128 == V8(Pixel(v, v, v))
    ensures Y8(Pixel(v, v, v)) == (220 * v + 128) / 256 + 16
    ensures Y8(Pixel(0, 0, 0)) == 16 && Y8(Pixel(255, 255, 255)) == 235
  {
  }

  /** The three primaries have the values of the standard. */
  lemma Primaries()
    ensures Y8(Pixel(255, 0, 0)) == 82 && U8(Pixel(255, 0, 0)) == 90 && V8(Pixel(255, 0, 0)) == 240
    ensures Y8(Pixel(0, 255, 0)) == 144 && U8(Pixel(0, 255, 0)) == 54 && V8(Pixel(0, 255, 0)) == 34
    ensures Y8(Pixel(0, 0, 255)) == 41 && U8(Pixel(0, 0, 255)) == 240 && V8(Pixel(0, 0, 255)) == 110
  {
  }

  lemma DivMono(a: int, b: int)
    requires a <= b
    ensures a / 256 <= b / 256
  {
  }

  /** More of any colour never lowers luma; more blue never lowers U nor raises V; more red never lowers V nor raises U;
      more green never raises either. */
  lemma Monotone(p: Pixel, q: Pixel)
    ensures p.r <= q.r && p.g <= q.g && p.b <= q.b ==> Y8(p) <= Y8(q)
    ensures p.r >= q.r && p.g >= q.g && p.b <= q.b ==> U8(p) <= U8(q)
    ensures p.r <= q.r && p.g >= q.g && p.b >= q.b ==> V8(p) <= V8(q)
  {
    SamplesInRange(p);
    SamplesInRange(q);
    if p.r <= q.r && p.g <= q.g && p.b <= q.b {
      DivMono(LumaSum(p), LumaSum(q));
    }
    if p.r >= q.r && p.g >= q.g && p.b <= q.b {
      DivMono(USum(p), USum(q));
    }
    if p.r <= q.r && p.g >= q.g && p.b >= q.b {
      DivMono(VSum(p), VSum(q));
    }
  }

  /** A 16-bit sample has its ten bits on top: the multiple of 64 at or below the sum of 16 bits. */
  predicate TopTenBits(s: UInt16, sum: int) { s % 64 == 0 && s <= sum < s + 64 }

  /** The 10-bit samples add two bits to the 8-bit ones, and stay within one step of the latter of BT.601. */
  lemma PixelIsBt601In10(r: UInt8, g: UInt8, b: UInt8)
    ensures
      && var p := Pixel(r, g, b);
      && TopTenBits(Y10(p), 66 * r + 129 * g + 25 * b + 128 + 16 * 256)
      && TopTenBits(U10(p), 112 * b - 38 * r - 74 * g + 128 + 128 * 256)
      && TopTenBits(V10(p), 112 * r - 94 * g - 18 * b + 128 + 128 * 256)
      && IsLuma(Y10(p) / 256, r, g, b) && IsCb(U10(p) / 256, r, g, b) && IsCr(V10(p) / 256, r, g, b)
  {
    var p := Pixel(r, g, b);
    SamplesInRange(p);
    TopOf(LumaSum(p) + 16 * 256);
    TopOf(USum(p) + 128 * 256);
    TopOf(VSum(p) + 128 * 256);
    PixelRefines(p);
    PixelIsBt601(r, g, b);
    hide Y8, U8, V8, Wrap16, ClearLow6, TopTenBits, IsLuma, IsCb, IsCr;
  }

  lemma TopOf(sum: int)
    requires 0 <= sum < 0x1_0000
    ensures TopTenBits(ClearLow6(Wrap16(sum)), sum)
  {
    Wrap16Is(sum);
  }

  // ---- images ----

  /** The three bytes of the pixel in column x of row y. */
  predicate HasPixel(rgb: seq<UInt8>, width: nat, x: nat, y: nat, r: UInt8, g: UInt8, b: UInt8) {
    var at := 3 * (y * width + x);
    at + 2 < |rgb| && rgb[at] == r && rgb[at + 1] == g && rgb[at + 2] == b
  }

  /** The luma byte of every pixel of an NV12 image. */
  lemma Nv12Luma(rgb: seq<UInt8>, width: nat, height: nat, nv12: seq<UInt8>, x: nat, y: nat,
                 r: UInt8, g: UInt8, b: UInt8)
    requires EvenImage(rgb, width, height) && Planar(NV12, rgb, width, width * height, nv12)
    requires x < width && y < height && HasPixel(rgb, width, x, y, r, g, b)
    ensures y * width + x < |nv12| && IsLuma(nv12[y * width + x], r, g, b)
  {
    hide Planar, IsLuma;
    PlanarLuma(NV12, rgb, width, height, nv12, x, y);
    PixelIsBt601(r, g, b);
    PlanarSize(NV12, rgb, width, width * height, nv12);
  }

  /** The chroma bytes of every block of two by two pixels: Cb, then Cr, of its lower right pixel. */
  lemma Nv12Chroma(rgb: seq<UInt8>, width: nat, height: nat, nv12: seq<UInt8>, c: nat, d: nat,
                   r: UInt8, g: UInt8, b: UInt8)
    requires EvenImage(rgb, width, height) && Planar(NV12, rgb, width, width * height, nv12)
    requires 2 * c < width && 2 * d < height && HasPixel(rgb, width, 2 * c + 1, 2 * d + 1, r, g, b)
    ensures
      && var at := width * height + d * width + 2 * c;
      && at + 1 < |nv12| && IsCb(nv12[at], r, g, b) && IsCr(nv12[at + 1], r, g, b)
  {
    hide Planar, IsCb, IsCr;
    PlanarChroma(NV12, rgb, width, height, nv12, c, d);
    PixelIsBt601(r, g, b);
  }

  lemma PlanarSize<T(!new)>(f: Format<T>, rgb: seq<UInt8>, width: nat, ySize: nat, samples: seq<T>)
    requires |rgb| == 3 * ySize && Planar(f, rgb, width, ySize, samples)
    ensures ySize <= |samples|
  {
  }

  /** NV21: the same with Cr before Cb. */
  lemma Nv21Colour(rgb: seq<UInt8>, width: nat, height: nat, nv21: seq<UInt8>, c: nat, d: nat,
                   r: UInt8, g: UInt8, b: UInt8)
    requires EvenImage(rgb, width, height) && Planar(NV21, rgb, width, width * height, nv21)
    requires 2 * c < width && 2 * d < height && HasPixel(rgb, width, 2 * c + 1, 2 * d + 1, r, g, b)
    ensures
      && var at := width * height + d * width + 2 * c;
      && at + 1 < |nv21| && IsCr(nv21[at], r, g, b) && IsCb(nv21[at + 1], r, g, b)
      && var p := (2 * d + 1) * width + (2 * c + 1);
      && p < |nv21| && IsLuma(nv21[p], r, g, b)
  {
    hide Planar, IsCb, IsCr, IsLuma;
    PlanarChroma(NV21, rgb, width, height, nv21, c, d);
    PlanarLuma(NV21, rgb, width, height, nv21, 2 * c + 1, 2 * d + 1);
    PixelIsBt601(r, g, b);
    PlanarSize(NV21, rgb, width, width * height, nv21);
  }

  /** P010: the high bytes of the 16-bit samples are those of NV12. */
  lemma P010Colour(rgb: seq<UInt8>, width: nat, height: nat, p010: seq<UInt16>, c: nat, d: nat,
                   r: UInt8, g: UInt8, b: UInt8)
    requires EvenImage(rgb, width, height) && Planar(P010, rgb, width, width * height, p010)
    requires 2 * c < width && 2 * d < height && HasPixel(rgb, width, 2 * c + 1, 2 * d + 1, r, g, b)
    ensures
      && var at := width * height + d * width + 2 * c;
      && at + 1 < |p010| && IsCb(p010[at] / 256, r, g, b) && IsCr(p010[at + 1] / 256, r, g, b)
      && var p := (2 * d + 1) * width + (2 * c + 1);
      && p < |p010| && IsLuma(p010[p] / 256, r, g, b)
  {
    hide Planar, IsCb, IsCr, IsLuma;
    PlanarChroma(P010, rgb, width, height, p010, c, d);
    PlanarLuma(P010, rgb, width, height, p010, 2 * c + 1, 2 * d + 1);
    PixelIsBt601In10(r, g, b);
    PlanarSize(P010, rgb, width, width * height, p010);
  }

  /** UYVY, for even widths: a pixel's luma is the odd byte of its pair, and the chroma of a pair is that of its left
      pixel. */
  lemma UyvyColour(rgb: seq<UInt8>, width: nat, height: nat, out: seq<UInt8>, x: nat, y: nat,
                   r: UInt8, g: UInt8, b: UInt8)
    requires |rgb| == 3 * (width * height) && width % 2 == 0 && x < width && y < height
    requires GroupIs(rgb, width, out, y, x / 2) && HasPixel(rgb, width, x, y, r, g, b)
    ensures
      && var at := 2 * (y * width + x);
      && 0 <= at && at + 1 < |out| && IsLuma(out[at + 1], r, g, b)
      && (x % 2 == 0 ==> at + 2 < |out| && IsCb(out[at], r, g, b) && IsCr(out[at + 2], r, g, b))
  {
    hide GroupIs, IsCb, IsCr, IsLuma;
    UyvySamples(rgb, width, height, out, x, y);
    PixelIsBt601(r, g, b);
    if x % 2 == 0 {
      assert x / 2 * 2 == x;
    }
  }
}
