/** Ranges of the samples, and the 10-bit output as a refinement of the 8-bit one. */
module ColourProofs {
  import opened QCDefs
  import opened ColourSpec
  import opened ColourConvert

  lemma LumaInRange(p: Pixel)
    ensures 16 <= LumaSum(p) / 256 + 16 <= 235 && 0 <= LumaSum(p) + 16 * 256 < 0x1_0000
  {
  }

  lemma UInRange(p: Pixel)
    ensures 16 <= USum(p) / 256 + 128 <= 240 && 0 <= USum(p) + 128 * 256 < 0x1_0000
  {
  }

  lemma VInRange(p: Pixel)
    ensures 16 <= VSum(p) / 256 + 128 <= 240 && 0 <= VSum(p) + 128 * 256 < 0x1_0000
  {
  }

  /** Neither conversion wraps: luma stays in 16..235 and chroma in 16..240 on the 8-bit side, and the 16-bit
      sums stay below 2^16. */
  lemma SamplesInRange(p: Pixel)
    ensures 16 <= Y8(p) == LumaSum(p) / 256 + 16 <= 235
    ensures 16 <= U8(p) == USum(p) / 256 + 128 <= 240
    ensures 16 <= V8(p) == VSum(p) / 256 + 128 <= 240
    ensures 0 <= LumaSum(p) + 16 * 256 < 0x1_0000
    ensures 0 <= USum(p) + 128 * 256 < 0x1_0000
    ensures 0 <= VSum(p) + 128 * 256 < 0x1_0000
  {
    hide LumaSum, USum, VSum;
    LumaInRange(p);
    UInRange(p);
    VInRange(p);
  }

  /** A 16-bit sample stands for an 8-bit one: its high byte is that one and its low six bits are zero. */
  predicate HighByteIs(s: UInt16, b: UInt8) {
    s / 256 == b && s % 64 == 0
  }

  lemma SumRefines(n: int, k: int)
    requires 0 <= n + k * 256 < 0x1_0000
    ensures ClearLow6(n + k * 256) / 256 == n / 256 + k
    ensures ClearLow6(n + k * 256) % 64 == 0
  {
  }

  lemma Wrap16Is(x: int)
    requires 0 <= x < 0x1_0000
    ensures Wrap16(x) == x
  {
  }

  /** Every 10-bit sample refines the 8-bit sample of the same pixel. */
  lemma PixelRefines(p: Pixel)
    ensures HighByteIs(Y10(p), Y8(p)) && HighByteIs(U10(p), U8(p)) && HighByteIs(V10(p), V8(p))
  {
    hide LumaSum, USum, VSum, HighByteIs, Wrap8, Wrap16, ClearLow6;
    SamplesInRange(p);
    SampleRefines(LumaSum(p), 16);
    SampleRefines(USum(p), 128);
    SampleRefines(VSum(p), 128);
  }

  lemma SampleRefines(n: int, k: int)
    requires 0 <= n + k * 256 < 0x1_0000
    ensures 0 <= n / 256 + k < 256
    ensures HighByteIs(ClearLow6(Wrap16(n + k * 256)), Wrap8(n / 256 + k))
  {
    Wrap16Is(n + k * 256);
    SumRefines(n, k);
  }

  /** The 10-bit image refines the 8-bit one: each 16-bit sample has its low six bits clear and, as its high byte,
      the NV12 byte at the same index. */
  lemma P010RefinesNv12(rgb: seq<UInt8>, width: nat, ySize: nat, nv12: seq<UInt8>, p010: seq<UInt16>)
    requires |rgb| == 3 * ySize
    requires Planar(NV12, rgb, width, ySize, nv12) && Planar(P010, rgb, width, ySize, p010)
    ensures forall j :: 0 <= j && 2 * j < 3 * ySize ==> HighByteIs(p010[j], nv12[j])
  {
    forall j | 0 <= j && 2 * j < 3 * ySize ensures HighByteIs(p010[j], nv12[j]) {
      if j < ySize {
        PixelRefines(PixelAt(rgb, j));
      } else {
        assert ChromaIs(NV12, rgb, width, ySize, nv12[j], j - ySize);
        assert ChromaIs(P010, rgb, width, ySize, p010[j], j - ySize);
        PixelRefines(PixelAt(rgb, ChromaPixel(width, j - ySize)));
      }
    }
  }

  /** NV21 is NV12 with the two samples of every chroma pair exchanged. */
  lemma Nv21SwapsNv12(rgb: seq<UInt8>, width: nat, height: nat, nv12: seq<UInt8>, nv21: seq<UInt8>)
    requires EvenImage(rgb, width, height)
    requires Planar(NV12, rgb, width, width * height, nv12) && Planar(NV21, rgb, width, width * height, nv21)
    ensures forall j :: 0 <= j < width * height ==> nv21[j] == nv12[j]
    ensures forall c, r :: 0 <= 2 * c < width && 0 <= 2 * r < height ==> Swapped(width, height, nv12, nv21, c, r)
  {
    forall c, r | 0 <= 2 * c < width && 0 <= 2 * r < height ensures Swapped(width, height, nv12, nv21, c, r) {
      PlanarChroma(NV12, rgb, width, height, nv12, c, r);
      PlanarChroma(NV21, rgb, width, height, nv21, c, r);
    }
  }

  ghost predicate Swapped(width: nat, height: nat, nv12: seq<UInt8>, nv21: seq<UInt8>, c: nat, r: nat) {
    var i := width * height + r * width + 2 * c;
    i + 1 < |nv12| && i + 1 < |nv21| && nv21[i] == nv12[i + 1] && nv21[i + 1] == nv12[i]
  }
}
