/** rgb_to_uyvy: two pixels of a row share one group of four bytes. */
module ColourUyvy {
  import opened QCDefs
  import opened ColourSpec
  import opened ColourConvert

  /** Where group w of row h starts: the source counts width / 2 groups per row. */
  function GroupAt(width: nat, h: nat, w: nat): nat { (h * (width / 2) + w) * 4 }

  function PairAt(width: nat, h: nat, w: nat): nat { h * width + w * 2 }

  /** The group holds U, Y and V of the pair's first pixel and Y of its second. */
  ghost predicate GroupIs(rgb: seq<UInt8>, width: nat, out: seq<UInt8>, h: nat, w: nat) {
    var at, p := GroupAt(width, h, w), PairAt(width, h, w);
    && at + 3 < |out| && 3 * (p + 1) + 2 < |rgb|
    && out[at] == U8(PixelAt(rgb, p)) && out[at + 1] == Y8(PixelAt(rgb, p))
    && out[at + 2] == V8(PixelAt(rgb, p)) && out[at + 3] == Y8(PixelAt(rgb, p + 1))
  }

  predicate Done(width: nat, h: nat, w: nat, row: nat, col: nat) {
    (h < row && w < width / 2) || (h == row && w < col)
  }

  lemma GroupInBounds(width: nat, height: nat, h: nat, w: nat)
    requires h < height && w < width / 2
    ensures PairAt(width, h, w) + 1 < width * height
    ensures GroupAt(width, h, w) + 3 < width * height * 3
  {
    var half := width / 2;
    MulMono(h + 1, height, width);
    MulMono(h + 1, height, half);
    assert (h + 1) * width == h * width + width && (h + 1) * half == h * half + half;
    assert 2 * (height * half) <= width * height by {
      MulMono(2 * half, width, height);
      assert (2 * half) * height == 2 * (height * half);
    }
  }

  /** Groups that are done lie before the next one. */
  lemma DoneIsBefore(width: nat, h: nat, w: nat, row: nat, col: nat)
    requires Done(width, h, w, row, col)
    ensures GroupAt(width, h, w) + 4 <= GroupAt(width, row, col)
  {
    var half := width / 2;
    if h < row {
      MulMono(h + 1, row, half);
      assert (h + 1) * half == h * half + half;
    }
  }

  method StoreGroup(rgb: seq<UInt8>, width: nat, output: array<UInt8>, h: nat, w: nat)
    requires GroupAt(width, h, w) + 3 < output.Length && 3 * (PairAt(width, h, w) + 1) + 2 < |rgb|
    modifies output
    ensures GroupIs(rgb, width, output[..], h, w)
    ensures forall j :: 0 <= j < GroupAt(width, h, w) ==> output[j] == old(output[j])
  {
    var at := (h * (width / 2) + w) * 4;
    var p0, p1 := PixelAt(rgb, h * width + w * 2), PixelAt(rgb, h * width + w * 2 + 1);
    output[at] := U8(p0);
    output[at + 1] := Y8(p0);
    output[at + 2] := V8(p0);
    output[at + 3] := Y8(p1);
  }

  lemma GroupStays(rgb: seq<UInt8>, width: nat, before: seq<UInt8>, after: seq<UInt8>, h: nat, w: nat, end: nat)
    requires GroupIs(rgb, width, before, h, w) && GroupAt(width, h, w) + 4 <= end <= |before| == |after|
    requires forall j :: 0 <= j < end ==> after[j] == before[j]
    ensures GroupIs(rgb, width, after, h, w)
  {
    hide GroupAt, PairAt, Y8, U8, V8;
  }

  method RgbToUyvy(rgb: seq<UInt8>, width: nat, height: nat) returns (output: array<UInt8>)
    requires |rgb| == 3 * (width * height)
    ensures output.Length == width * height * 3
    ensures forall h: nat, w: nat :: h < height && w < width / 2 ==> GroupIs(rgb, width, output[..], h, w)
  {
    hide GroupIs, GroupAt, PairAt;
    output := new UInt8[width * height * 3];
    for row := 0 to height
      invariant forall h: nat, w: nat :: Done(width, h, w, row, 0) ==> GroupIs(rgb, width, output[..], h, w)
    {
      for col := 0 to width / 2
        invariant forall h: nat, w: nat :: Done(width, h, w, row, col) ==> GroupIs(rgb, width, output[..], h, w)
      {
        GroupInBounds(width, height, row, col);
        ghost var before := output[..];
        StoreGroup(rgb, width, output, row, col);
        forall h: nat, w: nat | Done(width, h, w, row, col) ensures GroupIs(rgb, width, output[..], h, w) {
          DoneIsBefore(width, h, w, row, col);
          GroupStays(rgb, width, before, output[..], h, w, GroupAt(width, row, col));
        }
      }
    }
  }

  lemma GroupIsTwicePair(width: nat, h: nat, w: nat)
    requires width % 2 == 0
    ensures GroupAt(width, h, w) == 2 * PairAt(width, h, w)
  {
    var half := width / 2;
    assert h * (2 * half) == 2 * (h * half);
  }

  /** By coordinates, for even widths: the luma of pixel (x, y) is byte 2 * (y * width + x) + 1, and the chroma pair
      of columns 2w and 2w + 1 is that of column 2w. */
  lemma UyvySamples(rgb: seq<UInt8>, width: nat, height: nat, out: seq<UInt8>, x: nat, y: nat)
    requires |rgb| == 3 * (width * height) && width % 2 == 0 && x < width && y < height
    requires GroupIs(rgb, width, out, y, x / 2)
    ensures
      && var p, first := y * width + x, y * width + x / 2 * 2;
      && 0 <= 2 * first && 2 * p + 1 < |out| && 3 * p + 2 < |rgb| && 2 * first + 2 < |out| && 3 * first + 2 < |rgb|
      && out[2 * p + 1] == Y8(PixelAt(rgb, p))
      && out[2 * first] == U8(PixelAt(rgb, first)) && out[2 * first + 2] == V8(PixelAt(rgb, first))
  {
    hide Y8, U8, V8, GroupAt, PixelAt;
    GroupIsTwicePair(width, y, x / 2);
    var row := y * width;
    assert PairAt(width, y, x / 2) == row + x / 2 * 2;
  }
}
