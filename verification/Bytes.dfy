/** Little-endian integers and fields of byte strings, as memcpy of a packed structure and ctypes read and write
    them. */
module Bytes {
  import opened QCDefs

  type Bytes = seq<UInt8>

  function Pow256(n: nat): (r: int)
    ensures r >= 1
  {
    if n == 0 then 1 else 256 * Pow256(n - 1)
  }

  function Encode(v: nat, n: nat): (r: Bytes)
    ensures |r| == n
  {
    if n == 0 then [] else [v % 256] + Encode(v / 256, n - 1)
  }

  function Decode(s: Bytes): (r: nat)
    ensures r < Pow256(|s|)
  {
    if s == [] then 0 else s[0] + 256 * Decode(s[1..])
  }

  /** Reading n bytes back gives the value modulo 256^n, so the value itself when it fits. */
  lemma {:induction false} DecodeEncode(v: nat, n: nat)
    ensures Decode(Encode(v, n)) == v % Pow256(n)
    ensures v < Pow256(n) ==> Decode(Encode(v, n)) == v
  {
    if n > 0 {
      DecodeEncode(v / 256, n - 1);
      assert Encode(v, n)[1..] == Encode(v / 256, n - 1);
      ModStep(v, Pow256(n - 1));
    }
  }

  lemma ModStep(v: nat, m: int)
    requires m >= 1
    ensures v % (256 * m) == v % 256 + 256 * (v / 256 % m)
  {
    var q, r := v / 256 / m, v % 256 + 256 * (v / 256 % m);
    assert v / 256 == q * m + v / 256 % m;
    assert v == q * (256 * m) + r by {
      assert 256 * (q * m) == q * (256 * m);
    }
    DivisionUnique(v, 256 * m, q, r);
  }

  lemma DivisionUnique(v: int, m: int, q: int, r: int)
    requires 0 <= r < m && v == q * m + r
    ensures v % m == r && v / m == q
  {
    var d := v / m - q;
    assert d * m == r - v % m by {
      assert (v / m) * m + v % m == v;
    }
    assert d >= 1 ==> d * m >= m;
    assert d <= -1 ==> d * m <= -m;
  }

  lemma {:induction false} EncodeDecode(s: Bytes)
    ensures Encode(Decode(s), |s|) == s
  {
    if s != [] {
      EncodeDecode(s[1..]);
      assert Decode(s) % 256 == s[0] && Decode(s) / 256 == Decode(s[1..]);
    }
  }

  lemma Widths()
    ensures Pow256(1) == 0x100 && Pow256(2) == 0x1_0000
    ensures Pow256(4) == U32 && Pow256(8) == U64
  {
    assert Pow256(3) == 0x100_0000 && Pow256(5) == 0x100_0000_0000 && Pow256(6) == 0x1_0000_0000_0000;
  }

  /** Two's complement in n bytes: the bytes of i, and the number they stand for when read back as signed. */
  function Signed(u: nat, n: nat): int {
    if 2 * u < Pow256(n) then u else u - Pow256(n)
  }

  function Unsigned(i: int, n: nat): nat { i % Pow256(n) }

  lemma SignedUnsigned(i: int, n: nat)
    requires -Pow256(n) <= 2 * i < Pow256(n)
    ensures Signed(Unsigned(i, n), n) == i
  {
    var m := Pow256(n);
    if i >= 0 {
      DivisionUnique(i, m, 0, i);
    } else {
      DivisionUnique(i, m, -1, i + m);
    }
  }

  /** A Python slice: both bounds are cut to the length of the string. */
  function Slice(s: Bytes, from: nat, to: nat): Bytes
    requires from <= to
  {
    var lo := if from <= |s| then from else |s|;
    s[lo..if to <= |s| then to else |s|]
  }

  /** The bytes x lie in s from offset on. */
  ghost predicate At(s: Bytes, offset: nat, x: Bytes) {
    offset + |x| <= |s| && s[offset..offset + |x|] == x
  }

  lemma AtParts(s: Bytes, offset: nat, a: Bytes, b: Bytes)
    requires At(s, offset, a + b)
    ensures At(s, offset, a) && At(s, offset + |a|, b)
  {
    var whole := s[offset..offset + |a + b|];
    assert s[offset..offset + |a|] == whole[..|a|] == a;
    assert s[offset + |a|..offset + |a| + |b|] == whole[|a|..] == b;
  }

  lemma AtSlice(s: Bytes, offset: nat, x: Bytes)
    requires At(s, offset, x)
    ensures Slice(s, offset, offset + |x|) == x
  {
  }

  lemma AtThree(s: Bytes, offset: nat, a: Bytes, b: Bytes, c: Bytes)
    requires At(s, offset, a + (b + c))
    ensures At(s, offset, a) && At(s, offset + |a|, b) && At(s, offset + |a| + |b|, c)
  {
    AtParts(s, offset, a, b + c);
    AtParts(s, offset + |a|, b, c);
  }

  /** The unsigned field of n bytes at offset. */
  function Field(s: Bytes, offset: nat, n: nat): nat {
    Decode(Slice(s, offset, offset + n))
  }

  /** A field that lies in the string is read back. */
  lemma FieldIs(s: Bytes, offset: nat, v: nat, n: nat)
    requires At(s, offset, Encode(v, n)) && v < Pow256(n)
    ensures Field(s, offset, n) == v
  {
    AtSlice(s, offset, Encode(v, n));
    DecodeEncode(v, n);
  }

  /** Consecutive fields of four bytes. */
  function Words(ws: seq<UInt32>): (r: Bytes)
    ensures |r| == 4 * |ws|
  {
    if ws == [] then [] else Encode(ws[0], 4) + Words(ws[1..])
  }

  lemma {:induction false} WordIs(s: Bytes, offset: nat, ws: seq<UInt32>, k: nat)
    requires At(s, offset, Words(ws)) && k < |ws|
    ensures Field(s, offset + 4 * k, 4) == ws[k]
    decreases k
  {
    AtParts(s, offset, Encode(ws[0], 4), Words(ws[1..]));
    if k == 0 {
      Widths();
      FieldIs(s, offset, ws[0], 4);
    } else {
      WordIs(s, offset + 4, ws[1..], k - 1);
    }
  }
}
