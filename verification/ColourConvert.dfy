/** The converters' loop: one flat index walks the 2x2 blocks of the image, jumping over every second row. */
module ColourConvert {
  import opened QCDefs
  import opened ColourSpec

  lemma DivMod(q: nat, m: nat, n: nat)
    requires m < n
    ensures (q * n + m) / n == q && (q * n + m) % n == m
  {
    var a := q * n + m;
    assert a == (a / n) * n + a % n;
    assert (q - a / n) * n == a % n - m;
    if q > a / n {
      MulMono(1, q - a / n, n);
    } else if q < a / n {
      MulMono(1, a / n - q, n);
    }
  }

  lemma MulMono(a: int, b: int, n: nat)
    requires a <= b
    ensures a * n <= b * n
  {
  }

  /** Where the loop is when block column c of block row r is next. */
  predicate At(width: nat, height: nat, i: nat, k: nat, r: nat, c: nat) {
    && r <= height / 2
    && (if r < height / 2 then c < width / 2 else c == 0)
    && i == 2 * (r * width) + 2 * c
    && k == r * width + 2 * c
  }

  /** The six positions a block writes and the twelve it reads are in bounds. */
  lemma BlockInBounds(width: nat, height: nat, i: nat, k: nat, r: nat, c: nat)
    requires width % 2 == 0 && height % 2 == 0 && At(width, height, i, k, r, c)
    ensures (i < width * height <==> r < height / 2)
    ensures i < width * height ==> i + width + 1 < width * height && 2 * (k + 2) <= width * height
    ensures i >= width * height ==> i == width * height && 2 * k == width * height
  {
    var h := height / 2;
    assert width * height == 2 * (h * width);
    if r < h {
      MulMono(r + 1, h, width);
      assert (r + 1) * width == r * width + width;
    }
  }

  /** The two updates of the flat index at the end of a turn. */
  function NextIndex(width: nat, i: nat): nat
    requires width > 0
  {
    (if (i + 2) % width == 0 then i + width else i) + 2
  }

  function NextR(width: nat, r: nat, c: nat): nat { if c + 1 == width / 2 then r + 1 else r }
  function NextC(width: nat, c: nat): nat { if c + 1 == width / 2 then 0 else c + 1 }

  /** The end of a row of blocks is recognised by the remainder, and the jump leads to the next row. */
  lemma NextBlock(width: nat, height: nat, i: nat, k: nat, r: nat, c: nat)
    requires width % 2 == 0 && height % 2 == 0 && At(width, height, i, k, r, c) && r < height / 2
    ensures width > 0
    ensures (i + 2) % width == 0 <==> c + 1 == width / 2
    ensures At(width, height, NextIndex(width, i), k + 2, NextR(width, r, c), NextC(width, c))
  {
    if c + 1 == width / 2 {
      assert (2 * r + 1) * width == 2 * (r * width) + width;
      EndOfRow(2 * r + 1, width, i + 2);
      assert (r + 1) * width == r * width + width;
    } else {
      assert (2 * r) * width == 2 * (r * width);
      InRow(2 * r, 2 * c + 2, width, i + 2);
    }
  }

  lemma EndOfRow(q: nat, width: nat, j: nat)
    requires width > 0 && j == q * width
    ensures j % width == 0
  {
    DivMod(q, 0, width);
  }

  lemma InRow(q: nat, m: nat, width: nat, j: nat)
    requires 0 < m < width && j == q * width + m
    ensures j % width != 0
  {
    DivMod(q, m, width);
  }

  /** Luma position j belongs to a block before block (r, c). */
  predicate Before(width: nat, j: nat, r: nat, c: nat)
    requires width > 0
  {
    j / width / 2 < r || (j / width / 2 == r && j % width < 2 * c)
  }

  predicate InBlock(width: nat, j: nat, i: nat) {
    j == i || j == i + 1 || j == i + width || j == i + width + 1
  }

  lemma InBlockOnly(width: nat, height: nat, i: nat, k: nat, r: nat, c: nat, j: nat)
    requires width % 2 == 0 && At(width, height, i, k, r, c) && r < height / 2 && InBlock(width, j, i)
    ensures width > 0 && j / width / 2 == r && j % width / 2 == c
  {
    if j == i || j == i + 1 {
      assert j == (2 * r) * width + (2 * c + j - i);
      DivMod(2 * r, 2 * c + j - i, width);
    } else {
      assert j == (2 * r + 1) * width + (2 * c + j - i - width);
      DivMod(2 * r + 1, 2 * c + j - i - width, width);
    }
  }

  lemma InBlockAll(width: nat, height: nat, i: nat, k: nat, r: nat, c: nat, j: nat)
    requires width > 0 && width % 2 == 0 && At(width, height, i, k, r, c) && r < height / 2
    requires j / width / 2 == r && j % width / 2 == c
    ensures InBlock(width, j, i)
  {
    var q, m := j / width, j % width;
    assert j == q * width + m;
    if q % 2 == 0 {
      assert q * width == 2 * (r * width) by { assert q == 2 * r; }
    } else {
      assert q * width == 2 * (r * width) + width by { assert q == 2 * r + 1; }
    }
  }

  /** The four luma positions of block (r, c) are exactly those that the step from it to its successor adds. */
  lemma BlockAdds(width: nat, height: nat, i: nat, k: nat, r: nat, c: nat, j: nat)
    requires width % 2 == 0 && height % 2 == 0 && At(width, height, i, k, r, c) && r < height / 2
    ensures width > 0
    ensures InBlock(width, j, i) ==> !Before(width, j, r, c)
    ensures (if c + 1 == width / 2 then Before(width, j, r + 1, 0) else Before(width, j, r, c + 1)) <==>
      Before(width, j, r, c) || InBlock(width, j, i)
  {
    if InBlock(width, j, i) {
      InBlockOnly(width, height, i, k, r, c, j);
    } else if j / width / 2 == r && j % width / 2 == c {
      InBlockAll(width, height, i, k, r, c, j);
    }
  }

  lemma EvenProduct(r: nat, width: nat)
    requires width % 2 == 0
    ensures (r * width) % 2 == 0
  {
    var half := width / 2;
    assert r * (2 * half) == 2 * (r * half);
  }

  lemma PixelOf(width: nat, q: nat, m: nat, above: nat)
    requires m < width && above == q * width
    ensures ChromaPixel(width, above + m) == 2 * above + width + m / 2 * 2 + 1
  {
    DivMod(q, m, width);
    assert (2 * q + 1) * width == 2 * (q * width) + width;
  }

  lemma BlockChroma(width: nat, height: nat, i: nat, k: nat, r: nat, c: nat)
    requires width % 2 == 0 && height % 2 == 0 && At(width, height, i, k, r, c) && r < height / 2
    ensures width > 0 && k % 2 == 0
    ensures ChromaPixel(width, k) == i + width + 1 == ChromaPixel(width, k + 1)
  {
    hide ChromaPixel;
    var above := r * width;
    PixelOf(width, r, 2 * c, above);
    PixelOf(width, r, 2 * c + 1, above);
    EvenProduct(r, width);
    PairPixel(width, above, c, i, k);
  }

  lemma PairPixel(width: nat, above: nat, c: nat, i: nat, k: nat)
    requires width > 0 && above % 2 == 0 && i == 2 * above + 2 * c && k == above + 2 * c
    requires ChromaPixel(width, above + 2 * c) == 2 * above + width + 2 * c / 2 * 2 + 1
    requires ChromaPixel(width, above + (2 * c + 1)) == 2 * above + width + (2 * c + 1) / 2 * 2 + 1
    ensures k % 2 == 0 && ChromaPixel(width, k) == i + width + 1 == ChromaPixel(width, k + 1)
  {
    hide ChromaPixel;
  }

  /** The six stores of one turn of the loop. */
  method StoreBlock<T>(output: array<T>, ghost stores: seq<nat>, i: nat, width: nat, uv: nat,
                       y1: T, y2: T, y3: T, y4: T, first: T, second: T)
    returns (ghost counted: seq<nat>)
    requires 2 <= width && i + width + 1 < uv && uv + 1 < output.Length == |stores|
    modifies output
    ensures output[i] == y1 && output[i + 1] == y2 && output[i + width] == y3 && output[i + width + 1] == y4
    ensures output[uv] == first && output[uv + 1] == second
    ensures |counted| == |stores|
    ensures forall j :: 0 <= j < |stores| ==>
      var stored := InBlock(width, j, i) || j == uv || j == uv + 1;
      counted[j] == (if stored then stores[j] + 1 else stores[j]) && (!stored ==> output[j] == old(output[j]))
  {
    output[i], output[i + 1] := y1, y2;
    output[i + width], output[i + width + 1] := y3, y4;
    output[uv], output[uv + 1] := first, second;
    counted := seq(|stores|, j requires 0 <= j < |stores| =>
      if InBlock(width, j, i) || j == uv || j == uv + 1 then stores[j] + 1 else stores[j]);
  }

  /** The blocks before (r, c) have their luma written, once; nothing else in the luma plane was. */
  ghost predicate LumaDone<T(!new)>(f: Format<T>, rgb: seq<UInt8>, width: nat, ySize: nat,
                                    samples: seq<T>, stores: seq<nat>, r: nat, c: nat)
    requires width > 0 && |rgb| == 3 * ySize && ySize <= |samples| == |stores|
  {
    forall j :: 0 <= j < ySize ==>
      && stores[j] == (if Before(width, j, r, c) then 1 else 0)
      && (Before(width, j, r, c) ==> samples[j] == f.luma(PixelAt(rgb, j)))
  }

  /** The first k chroma samples are written, once; nothing after them was. */
  ghost predicate ChromaDone<T(!new)>(f: Format<T>, rgb: seq<UInt8>, width: nat, ySize: nat,
                                      samples: seq<T>, stores: seq<nat>, k: nat)
    requires width > 0 && |rgb| == 3 * ySize && ySize <= |samples| == |stores|
  {
    forall j :: ySize <= j < |samples| ==>
      && stores[j] == (if j < ySize + k then 1 else 0)
      && (j < ySize + k ==> ChromaIs(f, rgb, width, ySize, samples[j], j - ySize))
  }

  /** What the arithmetic of one turn comes to: the block at i is in bounds, adds exactly its four luma positions
      to those done, and the next chroma pair is its own. */
  ghost predicate BlockFacts(width: nat, ySize: nat, i: nat, k: nat, r: nat, c: nat, nextR: nat, nextC: nat) {
    && 2 <= width && i + width + 1 < ySize && 2 * (k + 2) <= ySize && k % 2 == 0
    && ChromaPixel(width, k) == i + width + 1 == ChromaPixel(width, k + 1)
    && (forall j :: 0 <= j < ySize && InBlock(width, j, i) ==> !Before(width, j, r, c))
    && (forall j :: 0 <= j < ySize ==>
         (Before(width, j, nextR, nextC) <==> Before(width, j, r, c) || InBlock(width, j, i)))
  }

  lemma BlockFactsHold(width: nat, height: nat, i: nat, k: nat, r: nat, c: nat)
    requires width % 2 == 0 && height % 2 == 0 && At(width, height, i, k, r, c) && i < width * height
    ensures r < height / 2 && width > 0
    ensures BlockFacts(width, width * height, i, k, r, c, NextR(width, r, c), NextC(width, c))
  {
    BlockInBounds(width, height, i, k, r, c);
    BlockChroma(width, height, i, k, r, c);
    forall j | 0 <= j < width * height
      ensures InBlock(width, j, i) ==> !Before(width, j, r, c)
      ensures (if c + 1 == width / 2 then Before(width, j, r + 1, 0) else Before(width, j, r, c + 1)) <==>
        Before(width, j, r, c) || InBlock(width, j, i)
    {
      BlockAdds(width, height, i, k, r, c, j);
    }
  }

  lemma LumaOn<T(!new)>(f: Format<T>, rgb: seq<UInt8>, width: nat, ySize: nat, i: nat, k: nat, r: nat, c: nat,
                        nextR: nat, nextC: nat, samples: seq<T>, stores: seq<nat>, after: seq<T>, counted: seq<nat>)
    requires |rgb| == 3 * ySize <= |samples| == |stores| == |after| == |counted|
    requires BlockFacts(width, ySize, i, k, r, c, nextR, nextC)
    requires LumaDone(f, rgb, width, ySize, samples, stores, r, c)
    requires forall j :: 0 <= j < ySize ==>
      && counted[j] == (if InBlock(width, j, i) then stores[j] + 1 else stores[j])
      && after[j] == if InBlock(width, j, i) then f.luma(PixelAt(rgb, j)) else samples[j]
    ensures LumaDone(f, rgb, width, ySize, after, counted, nextR, nextC)
  {
  }

  lemma ChromaOn<T(!new)>(f: Format<T>, rgb: seq<UInt8>, width: nat, ySize: nat, i: nat, k: nat, r: nat, c: nat,
                          nextR: nat, nextC: nat, samples: seq<T>, stores: seq<nat>, after: seq<T>, counted: seq<nat>)
    requires |rgb| == 3 * ySize <= |samples| == |stores| == |after| == |counted|
    requires BlockFacts(width, ySize, i, k, r, c, nextR, nextC)
    requires ChromaDone(f, rgb, width, ySize, samples, stores, k)
    requires after[ySize + k] == f.first(PixelAt(rgb, i + width + 1))
    requires after[ySize + k + 1] == f.second(PixelAt(rgb, i + width + 1))
    requires forall j :: ySize <= j < |stores| ==>
      && counted[j] == (if j == ySize + k || j == ySize + k + 1 then stores[j] + 1 else stores[j])
      && (j != ySize + k && j != ySize + k + 1 ==> after[j] == samples[j])
    ensures ChromaDone(f, rgb, width, ySize, after, counted, k + 2)
  {
    hide ChromaIs, ChromaPixel, PixelAt;
    NewPair(f, rgb, width, ySize, i, k, after[ySize + k], after[ySize + k + 1]);
  }

  lemma NewPair<T(!new)>(f: Format<T>, rgb: seq<UInt8>, width: nat, ySize: nat, i: nat, k: nat, first: T, second: T)
    requires |rgb| == 3 * ySize && width > 0 && k % 2 == 0 && i + width + 1 < ySize
    requires ChromaPixel(width, k) == i + width + 1 == ChromaPixel(width, k + 1)
    requires first == f.first(PixelAt(rgb, i + width + 1)) && second == f.second(PixelAt(rgb, i + width + 1))
    ensures ChromaIs(f, rgb, width, ySize, first, k) && ChromaIs(f, rgb, width, ySize, second, k + 1)
  {
    hide ChromaPixel, PixelAt;
  }

  /** The body of the loop up to the index updates. */
  method ConvertBlock<T(!new)>(rgb: seq<UInt8>, width: nat, ySize: nat, f: Format<T>, output: array<T>, i: nat, k: nat,
                               ghost r: nat, ghost c: nat, ghost nextR: nat, ghost nextC: nat, ghost stores: seq<nat>)
    returns (ghost counted: seq<nat>)
    requires |rgb| == 3 * ySize && output.Length == 3 * ySize == |stores|
    requires BlockFacts(width, ySize, i, k, r, c, nextR, nextC)
    requires LumaDone(f, rgb, width, ySize, output[..], stores, r, c)
    requires ChromaDone(f, rgb, width, ySize, output[..], stores, k)
    modifies output
    ensures |counted| == output.Length
    ensures LumaDone(f, rgb, width, ySize, output[..], counted, nextR, nextC)
    ensures ChromaDone(f, rgb, width, ySize, output[..], counted, k + 2)
  {
    var p1, p2 := PixelAt(rgb, i), PixelAt(rgb, i + 1);
    var p3, p4 := PixelAt(rgb, width + i), PixelAt(rgb, width + i + 1);
    ghost var before := output[..];
    counted := StoreBlock(output, stores, i, width, ySize + k,
      f.luma(p1), f.luma(p2), f.luma(p3), f.luma(p4), f.first(p4), f.second(p4));
    LumaOn(f, rgb, width, ySize, i, k, r, c, nextR, nextC, before, stores, output[..], counted);
    ChromaOn(f, rgb, width, ySize, i, k, r, c, nextR, nextC, before, stores, output[..], counted);
  }

  lemma RowBelow(width: nat, height: nat, j: nat)
    requires width > 0 && j < width * height
    ensures j / width < height
  {
    assert j == (j / width) * width + j % width;
    if j / width >= height {
      MulMono(height, j / width, width);
    }
  }

  lemma NothingDone<T(!new)>(f: Format<T>, rgb: seq<UInt8>, width: nat, ySize: nat, samples: seq<T>, stores: seq<nat>)
    requires width > 0 && |rgb| == 3 * ySize && ySize <= |samples| == |stores|
    requires forall j :: 0 <= j < |stores| ==> stores[j] == 0
    ensures LumaDone(f, rgb, width, ySize, samples, stores, 0, 0)
    ensures ChromaDone(f, rgb, width, ySize, samples, stores, 0)
  {
    forall j | 0 <= j < ySize ensures !Before(width, j, 0, 0) {
      QuotientIsNat(width, j);
    }
  }

  lemma QuotientIsNat(width: nat, j: nat)
    requires width > 0
    ensures j / width >= 0 && 0 <= j % width < width
  {
    if j / width < 0 {
      MulMono(j / width, -1, width);
    }
  }

  /** The loop shared by rgb_to_nv12, rgb_to_nv21 and rgb_to_p010. `stores` counts the writes to each sample. */
  method Convert<T(!new)>(rgb: seq<UInt8>, width: nat, height: nat, f: Format<T>, output: array<T>)
    returns (ghost stores: seq<nat>)
    requires width > 0 && height > 0
    requires EvenImage(rgb, width, height) && output.Length == 3 * (width * height)
    modifies output
    ensures |stores| == output.Length
    ensures LumaDone(f, rgb, width, width * height, output[..], stores, height / 2, 0)
    ensures ChromaDone(f, rgb, width, width * height, output[..], stores, width * height / 2)
  {
    var ySize := width * height;
    var i, k := 0, 0;
    ghost var r, c := 0, 0;
    stores := seq(output.Length, _ => 0);
    NothingDone(f, rgb, width, ySize, output[..], stores);
    while i < ySize
      invariant At(width, height, i, k, r, c)
      invariant |stores| == output.Length
      invariant LumaDone(f, rgb, width, ySize, output[..], stores, r, c)
      invariant ChromaDone(f, rgb, width, ySize, output[..], stores, k)
    {
      BlockFactsHold(width, height, i, k, r, c);
      NextBlock(width, height, i, k, r, c);
      stores := ConvertBlock(rgb, width, ySize, f, output, i, k, r, c, NextR(width, r, c), NextC(width, c), stores);
      r, c := NextR(width, r, c), NextC(width, c);
      ghost var next := NextIndex(width, i);
      if (i + 2) % width == 0 {
        i := i + width;
      }
      i := i + 2;
      k := k + 2;
      assert i == next;
    }
    BlockInBounds(width, height, i, k, r, c);
  }

  lemma AllBefore(width: nat, height: nat)
    requires width > 0 && height % 2 == 0
    ensures forall j :: 0 <= j < width * height ==> Before(width, j, height / 2, 0)
  {
    forall j | 0 <= j < width * height ensures Before(width, j, height / 2, 0) {
      RowBelow(width, height, j);
    }
  }

  lemma AllDone<T(!new)>(f: Format<T>, rgb: seq<UInt8>, width: nat, ySize: nat, samples: seq<T>,
                            stores: seq<nat>, r: nat)
    requires width > 0 && ySize % 2 == 0 && |rgb| == 3 * ySize == |samples| == |stores|
    requires forall j :: 0 <= j < ySize ==> Before(width, j, r, 0)
    requires LumaDone(f, rgb, width, ySize, samples, stores, r, 0)
    requires ChromaDone(f, rgb, width, ySize, samples, stores, ySize / 2)
    ensures Planar(f, rgb, width, ySize, samples)
    ensures OnceEach(stores, ySize)
  {
  }

  lemma NothingToConvert<T(!new)>(f: Format<T>, rgb: seq<UInt8>, width: nat, ySize: nat, samples: seq<T>,
                                  stores: seq<nat>)
    requires ySize == 0 == |rgb| == |samples| == |stores|
    ensures Planar(f, rgb, width, ySize, samples) && OnceEach(stores, ySize)
  {
  }

  /** Each of the first 3/2 * ySize samples was stored once, and no other. */
  ghost predicate OnceEach(stores: seq<nat>, ySize: nat) {
    forall j :: 0 <= j < |stores| ==> stores[j] == if 2 * j < 3 * ySize then 1 else 0
  }

  method RgbToPlanar<T(0, !new)>(rgb: seq<UInt8>, width: nat, height: nat, f: Format<T>)
    returns (output: array<T>, ghost stores: seq<nat>)
    requires EvenImage(rgb, width, height)
    ensures output.Length == |rgb| == |stores|
    ensures Planar(f, rgb, width, width * height, output[..])
    ensures OnceEach(stores, width * height)
  {
    hide Planar, OnceEach, LumaDone, ChromaDone, Before;
    output := new T[width * height * 3];
    stores := seq(output.Length, _ => 0);
    // The loop makes no turn for an empty image.
    if width > 0 && height > 0 {
      stores := Convert(rgb, width, height, f, output);
      AllBefore(width, height);
      EvenProduct(width, height);
      AllDone(f, rgb, width, width * height, output[..], stores, height / 2);
    } else {
      NothingToConvert(f, rgb, width, width * height, output[..], stores);
    }
  }

  method RgbToNv12(rgb: seq<UInt8>, width: nat, height: nat) returns (output: array<UInt8>, ghost stores: seq<nat>)
    requires EvenImage(rgb, width, height)
    ensures output.Length == |rgb| == |stores|
    ensures Planar(NV12, rgb, width, width * height, output[..]) && OnceEach(stores, width * height)
  {
    output, stores := RgbToPlanar(rgb, width, height, NV12);
  }

  method RgbToNv21(rgb: seq<UInt8>, width: nat, height: nat) returns (output: array<UInt8>, ghost stores: seq<nat>)
    requires EvenImage(rgb, width, height)
    ensures output.Length == |rgb| == |stores|
    ensures Planar(NV21, rgb, width, width * height, output[..]) && OnceEach(stores, width * height)
  {
    output, stores := RgbToPlanar(rgb, width, height, NV21);
  }

  method RgbToP010(rgb: seq<UInt8>, width: nat, height: nat) returns (output: array<UInt16>, ghost stores: seq<nat>)
    requires EvenImage(rgb, width, height)
    ensures output.Length == |rgb| == |stores|
    ensures Planar(P010, rgb, width, width * height, output[..]) && OnceEach(stores, width * height)
  {
    output, stores := RgbToPlanar(rgb, width, height, P010);
  }

  // ---- by coordinates ----

  /** The luma of pixel (x, y) is at y*width + x. */
  lemma PlanarLuma<T(!new)>(f: Format<T>, rgb: seq<UInt8>, width: nat, height: nat, samples: seq<T>, x: nat, y: nat)
    requires EvenImage(rgb, width, height) && Planar(f, rgb, width, width * height, samples)
    requires x < width && y < height
    ensures y * width + x < width * height
    ensures samples[y * width + x] == f.luma(PixelAt(rgb, y * width + x))
  {
    MulMono(y + 1, height, width);
    assert (y + 1) * width == y * width + width;
  }

  lemma AtBlock(width: nat, height: nat, r: nat, c: nat)
    requires width % 2 == 0 && height % 2 == 0 && 2 * c < width && 2 * r < height
    ensures At(width, height, 2 * (r * width) + 2 * c, r * width + 2 * c, r, c)
  {
  }

  /** At width*height + r*width + 2c stand the chroma samples of pixel (2c+1, 2r+1). */
  lemma PlanarChroma<T(!new)>(f: Format<T>, rgb: seq<UInt8>, width: nat, height: nat, samples: seq<T>, c: nat, r: nat)
    requires EvenImage(rgb, width, height) && Planar(f, rgb, width, width * height, samples)
    requires 2 * c < width && 2 * r < height
    ensures var i, p := width * height + r * width + 2 * c, (2 * r + 1) * width + (2 * c + 1);
      && p < width * height && i + 1 < |samples|
      && samples[i] == f.first(PixelAt(rgb, p)) && samples[i + 1] == f.second(PixelAt(rgb, p))
  {
    hide At, Planar, ChromaPixel, PixelAt;
    var t, i := r * width + 2 * c, 2 * (r * width) + 2 * c;
    AtBlock(width, height, r, c);
    BlockInBounds(width, height, i, t, r, c);
    BlockChroma(width, height, i, t, r, c);
    PixelIndex(width, r, c);
    ChromaPair(f, rgb, width, width * height, samples, t, (2 * r + 1) * width + (2 * c + 1));
  }

  lemma PixelIndex(width: nat, r: nat, c: nat)
    ensures (2 * r + 1) * width + (2 * c + 1) == 2 * (r * width) + 2 * c + width + 1
  {
  }

  lemma ChromaPair<T(!new)>(f: Format<T>, rgb: seq<UInt8>, width: nat, ySize: nat, samples: seq<T>, t: nat, p: nat)
    requires |rgb| == 3 * ySize && Planar(f, rgb, width, ySize, samples) && width > 0
    requires t % 2 == 0 && 2 * (t + 2) <= ySize
    requires ChromaPixel(width, t) == p == ChromaPixel(width, t + 1)
    ensures p < ySize && ySize + t + 1 < |samples|
    ensures samples[ySize + t] == f.first(PixelAt(rgb, p)) && samples[ySize + t + 1] == f.second(PixelAt(rgb, p))
  {
    assert ChromaIs(f, rgb, width, ySize, samples[ySize + t], t);
    assert ChromaIs(f, rgb, width, ySize, samples[ySize + t + 1], t + 1);
  }
}
