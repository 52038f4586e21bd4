/** The brand-logo tile: box averaging weighted by alpha, into at most 240 by 240 pixels. */
module BrandTile {
  const TILE_SIDE: int := 240

  newtype Byte = x: int | 0 <= x < 256

  /** A pixel with alpha not premultiplied. */
  datatype Pixel = Pixel(r: Byte, g: Byte, b: Byte, a: Byte)

  const CLEAR: Pixel := Pixel(0, 0, 0, 0)

  /** A decoded image, read pixel by pixel. */
  datatype Image = Image(w: nat, h: nat, at: (int, int) -> Pixel)

  datatype Tile = Empty | Encoded(pixels: array2<Pixel>)

  function Max(a: int, b: int): int { if a < b then b else a }

  // ---- the shape of the tile

  function Scale(img: Image): real {
    var m := Max(img.w, img.h);
    if m > TILE_SIDE then TILE_SIDE as real / m as real else 1.0
  }

  function Times(s: real, scale: real): real { s * scale }
  function Half(v: real): real { v + 0.5 }
  function Rounded(v: real): int { Max(1, Half(v).Floor) }

  /** One side of the tile: the scaled side of the source to the nearest whole pixel, and at least one. */
  function Side(s: nat, scale: real): int { Rounded(Times(s as real, scale)) }

  function TileWidth(img: Image): int { Side(img.w, Scale(img)) }
  function TileHeight(img: Image): int { Side(img.h, Scale(img)) }

  lemma {:induction false} ScaledSide(s: nat, m: nat, k: real)
    requires 1 <= s <= m && Times(m as real, k) == 240.0 && 0.0 < k < 1.0
    ensures 1 <= Side(s, k) <= TILE_SIDE && Side(s, k) <= s
    ensures s == m ==> Side(s, k) == TILE_SIDE
  {
    Scaled(s as real, m as real, k);
    RoundedSide(s, Times(s as real, k));
  }

  lemma {:induction false} Scaled(s: real, m: real, k: real)
    requires 1.0 <= s <= m && 0.0 < k < 1.0 && Times(m, k) == 240.0
    ensures 0.0 < Times(s, k) <= 240.0 && Times(s, k) < s
    ensures s == m ==> Times(s, k) == 240.0
  {
    ShrunkBy(s, k);
  }

  lemma {:induction false} ShrunkBy(s: real, k: real)
    requires 0.0 < s && k < 1.0
    ensures Times(s, k) < s
  {
    assert s * (1.0 - k) > 0.0;
  }

  lemma {:induction false} RoundedSide(s: nat, v: real)
    requires 0.0 < v < s as real && v <= 240.0
    ensures 1 <= Rounded(v) <= TILE_SIDE && Rounded(v) <= s
    ensures v == 240.0 ==> Rounded(v) == TILE_SIDE
  {
  }

  /** The sides lie in 1..240 and never exceed the source; a small image keeps its size, a large one fills 240. */
  lemma {:induction false} TileFits(img: Image)
    requires img.w >= 1 && img.h >= 1
    ensures 1 <= TileWidth(img) <= TILE_SIDE && TileWidth(img) <= img.w
    ensures 1 <= TileHeight(img) <= TILE_SIDE && TileHeight(img) <= img.h
    ensures Max(img.w, img.h) <= TILE_SIDE ==> TileWidth(img) == img.w && TileHeight(img) == img.h
    ensures Max(img.w, img.h) > TILE_SIDE ==> Max(TileWidth(img), TileHeight(img)) == TILE_SIDE
  {
    var m := Max(img.w, img.h);
    if m > TILE_SIDE {
      ScaledSide(img.w, m, Scale(img));
      ScaledSide(img.h, m, Scale(img));
    } else {
      Unscaled(img.w);
      Unscaled(img.h);
    }
  }

  lemma {:induction false} Unscaled(s: nat)
    requires s >= 1
    ensures Side(s, 1.0) == s
  {
  }

  // ---- boxes along one axis: destination d of n covers Start(d)..End(d) of s

  function Start(d: int, s: int, n: int): int
    requires n > 0
  {
    d * s / n
  }

  function End(d: int, s: int, n: int): int
    requires n > 0
  {
    Max(Start(d, s, n) + 1, Start(d + 1, s, n))
  }

  predicate Covers(d: int, s: int, n: int, x: int)
    requires n > 0
  {
    0 <= d < n && Start(d, s, n) <= x < End(d, s, n)
  }

  lemma {:induction false} QuotientBounds(p: int, n: int)
    requires n > 0
    ensures p / n * n <= p < (p / n + 1) * n
  {
  }

  lemma {:induction false} QuotientAtLeast(k: int, p: int, n: int)
    requires n > 0
    ensures k <= p / n <==> k * n <= p
  {
    QuotientBounds(p, n);
    if k <= p / n { Compare(k, p / n, n); } else { Compare(p / n + 1, k, n); }
  }

  lemma {:induction false} QuotientMonotone(p: int, q: int, n: int)
    requires n > 0 && p <= q
    ensures p / n <= q / n
    ensures p + n <= q ==> p / n + 1 <= q / n
  {
    QuotientBounds(p, n);
    QuotientAtLeast(p / n, q, n);
    QuotientAtLeast(p / n + 1, q, n);
    assert (p / n + 1) * n == p / n * n + n;
  }

  lemma {:induction false} Compare(a: int, b: int, n: int)
    requires a <= b && n > 0
    ensures a * n <= b * n
  {
  }

  /** The boxes are non-empty and each ends where the next starts; the first starts at 0 and the last ends at s. */
  lemma {:induction false} BoxesAdjoin(d: int, s: int, n: int)
    requires 0 < n <= s
    ensures End(d, s, n) == Start(d + 1, s, n) > Start(d, s, n)
    ensures Start(0, s, n) == 0 && Start(n, s, n) == s
  {
    assert (d + 1) * s == d * s + s;
    QuotientMonotone(d * s, (d + 1) * s, n);
    Whole(s, n);
  }

  lemma {:induction false} Whole(s: int, n: int)
    requires n > 0
    ensures n * s / n == s
  {
    QuotientAtLeast(s, n * s, n);
    QuotientAtLeast(s + 1, n * s, n);
    assert (s + 1) * n == n * s + n;
  }

  lemma {:induction false} StartsAscend(d: int, e: int, s: int, n: int)
    requires 0 < n && 0 <= s && d <= e
    ensures Start(d, s, n) <= Start(e, s, n)
  {
    if s > 0 { Compare(d, e, s); }
    QuotientMonotone(d * s, e * s, n);
  }

  /** The destination column that covers a source column. */
  function Owner(x: int, s: int, n: int, d: int): int
    requires 0 < n <= s && 0 <= d < n && Start(d, s, n) <= x < s
    ensures Covers(Owner(x, s, n, d), s, n, x)
    decreases n - d
  {
    BoxesAdjoin(d, s, n);
    if x < End(d, s, n) then d
    else
      BoxesAdjoin(n - 1, s, n);
      Owner(x, s, n, d + 1)
  }

  /** The boxes cover exactly the positions of the source. */
  lemma {:induction false} BoxesCover(s: int, n: int, x: int)
    requires 0 < n <= s
    ensures 0 <= x < s <==> exists d :: Covers(d, s, n, x)
  {
    BoxesAdjoin(0, s, n);
    if 0 <= x < s {
      var d := Owner(x, s, n, 0);
    }
    forall d | Covers(d, s, n, x) ensures 0 <= x < s {
      BoxesAdjoin(d, s, n);
      StartsAscend(0, d, s, n);
      StartsAscend(d + 1, n, s, n);
    }
  }

  /** No position lies in two boxes. */
  lemma {:induction false} BoxesDisjoint(s: int, n: int, x: int, d: int, e: int)
    requires 0 < n <= s && Covers(d, s, n, x) && Covers(e, s, n, x)
    ensures d == e
  {
    BoxesAdjoin(d, s, n);
    BoxesAdjoin(e, s, n);
    StartsAscend(d + 1, if d < e then e else d + 1, s, n);
    StartsAscend(e + 1, if e < d then d else e + 1, s, n);
  }

  /** Whether the box behind one tile pixel holds one source pixel. */
  predicate InBox(img: Image, dx: int, dy: int, x: int, y: int)
    requires img.w >= 1 && img.h >= 1
  {
    Covers(dx, img.w, TileWidth(img), x) && Covers(dy, img.h, TileHeight(img), y)
  }

  /** Every source pixel feeds a tile pixel, and only source pixels do. */
  lemma {:induction false} EveryPixelFeeds(img: Image, x: int, y: int)
    requires img.w >= 1 && img.h >= 1
    ensures 0 <= x < img.w && 0 <= y < img.h <==> exists dx, dy :: InBox(img, dx, dy, x, y)
  {
    TileFits(img);
    BoxesCover(img.w, TileWidth(img), x);
    BoxesCover(img.h, TileHeight(img), y);
    if 0 <= x < img.w && 0 <= y < img.h {
      var dx :| Covers(dx, img.w, TileWidth(img), x);
      var dy :| Covers(dy, img.h, TileHeight(img), y);
      assert InBox(img, dx, dy, x, y);
    }
  }

  /** No source pixel feeds two tile pixels. */
  lemma {:induction false} NoPixelTwice(img: Image, x: int, y: int, dx: int, dy: int, ex: int, ey: int)
    requires img.w >= 1 && img.h >= 1 && InBox(img, dx, dy, x, y) && InBox(img, ex, ey, x, y)
    ensures dx == ex && dy == ey
  {
    TileFits(img);
    BoxesDisjoint(img.w, TileWidth(img), x, dx, ex);
    BoxesDisjoint(img.h, TileHeight(img), y, dy, ey);
  }

  // ---- sums over a box

  datatype Channel = Red | Green | Blue | Alpha

  function Weight(p: Pixel): real { p.a as real / 255.0 }

  function Level(ch: Channel, p: Pixel): real {
    match ch
    case Red => p.r as real
    case Green => p.g as real
    case Blue => p.b as real
    case Alpha => 1.0
  }

  /** What one pixel adds to the sum of a channel. */
  function Share(ch: Channel, p: Pixel): real { Level(ch, p) * Weight(p) }

  function RowSum(img: Image, ch: Channel, y: int, x0: int, x1: int): real
    decreases x1 - x0
  {
    if x1 <= x0 then 0.0
    else RowSum(img, ch, y, x0, x1 - 1) + Share(ch, img.at(x1 - 1, y))
  }

  function BoxSum(img: Image, ch: Channel, x0: int, x1: int, y0: int, y1: int): real
    decreases y1 - y0
  {
    if y1 <= y0 then 0.0 else BoxSum(img, ch, x0, x1, y0, y1 - 1) + RowSum(img, ch, y1 - 1, x0, x1)
  }

  /** What a colour level or an alpha becomes when it is stored. */
  function Stored(v: real): Byte {
    var k := (v + 0.5).Floor;
    if k < 0 then 0 else if k > 255 then 255 else k as Byte
  }

  function FromSums(r: real, g: real, b: real, a: real, n: real): Pixel {
    if a == 0.0 || n == 0.0 then CLEAR else Pixel(Stored(r / a), Stored(g / a), Stored(b / a), Stored(a / n * 255.0))
  }

  function Average(img: Image, x0: int, x1: int, y0: int, y1: int): Pixel {
    FromSums(BoxSum(img, Red, x0, x1, y0, y1), BoxSum(img, Green, x0, x1, y0, y1), BoxSum(img, Blue, x0, x1, y0, y1),
             BoxSum(img, Alpha, x0, x1, y0, y1), ((x1 - x0) * (y1 - y0)) as real)
  }

  function TilePixel(img: Image, dx: int, dy: int): Pixel
    requires img.w >= 1 && img.h >= 1
  {
    var dw, dh := TileWidth(img), TileHeight(img);
    Average(img, Start(dx, img.w, dw), End(dx, img.w, dw), Start(dy, img.h, dh), End(dy, img.h, dh))
  }

  // ---- the loops

  /** The two inner loops: sums over one box and the number of pixels in it. */
  method SumBox(img: Image, x0: int, x1: int, y0: int, y1: int) returns (r: real, g: real, bl: real, a: real, n: int)
    requires x0 <= x1 && y0 <= y1
    ensures r == BoxSum(img, Red, x0, x1, y0, y1) && g == BoxSum(img, Green, x0, x1, y0, y1)
    ensures bl == BoxSum(img, Blue, x0, x1, y0, y1) && a == BoxSum(img, Alpha, x0, x1, y0, y1)
    ensures n == (x1 - x0) * (y1 - y0)
  {
    r, g, bl, a, n := 0.0, 0.0, 0.0, 0.0, 0;
    for y := y0 to y1
      invariant r == BoxSum(img, Red, x0, x1, y0, y) && g == BoxSum(img, Green, x0, x1, y0, y)
      invariant bl == BoxSum(img, Blue, x0, x1, y0, y) && a == BoxSum(img, Alpha, x0, x1, y0, y)
      invariant n == (x1 - x0) * (y - y0)
    {
      for x := x0 to x1
        invariant r == BoxSum(img, Red, x0, x1, y0, y) + RowSum(img, Red, y, x0, x)
        invariant g == BoxSum(img, Green, x0, x1, y0, y) + RowSum(img, Green, y, x0, x)
        invariant bl == BoxSum(img, Blue, x0, x1, y0, y) + RowSum(img, Blue, y, x0, x)
        invariant a == BoxSum(img, Alpha, x0, x1, y0, y) + RowSum(img, Alpha, y, x0, x)
        invariant n == (x1 - x0) * (y - y0) + (x - x0)
      {
        var c := img.at(x, y);
        var af := c.a as real / 255.0;
        r := r + c.r as real * af;
        g := g + c.g as real * af;
        bl := bl + c.b as real * af;
        a := a + af;
        n := n + 1;
      }
      assert (x1 - x0) * (y + 1 - y0) == (x1 - x0) * (y - y0) + (x1 - x0);
    }
  }

  method FillRow(img: Image, dst: array2<Pixel>, dy: int)
    requires img.w >= 1 && img.h >= 1 && dst.Length0 == TileWidth(img) && 0 <= dy < dst.Length1 == TileHeight(img)
    requires forall i :: 0 <= i < dst.Length0 ==> dst[i, dy] == CLEAR
    modifies dst
    ensures forall i :: 0 <= i < dst.Length0 ==> dst[i, dy] == TilePixel(img, i, dy)
    ensures forall i, j :: 0 <= i < dst.Length0 && 0 <= j < dst.Length1 && j != dy ==> dst[i, j] == old(dst[i, j])
  {
    var dw, dh := dst.Length0, dst.Length1;
    var y0 := dy * img.h / dh;
    var y1 := Max(y0 + 1, (dy + 1) * img.h / dh);
    for dx := 0 to dw
      invariant forall i :: 0 <= i < dx ==> dst[i, dy] == TilePixel(img, i, dy)
      invariant forall i :: dx <= i < dw ==> dst[i, dy] == CLEAR
      invariant forall i, j :: 0 <= i < dw && 0 <= j < dh && j != dy ==> dst[i, j] == old(dst[i, j])
    {
      var x0 := dx * img.w / dw;
      var x1 := Max(x0 + 1, (dx + 1) * img.w / dw);
      var p := AverageBox(img, x0, x1, y0, y1);
      assert p == TilePixel(img, dx, dy);
      if p != CLEAR {
        dst[dx, dy] := p;
      }
    }
  }

  /** The averaged pixel of one box; a fully transparent box leaves the pixel clear. */
  method AverageBox(img: Image, x0: int, x1: int, y0: int, y1: int) returns (p: Pixel)
    requires x0 < x1 && y0 < y1
    ensures p == Average(img, x0, x1, y0, y1)
  {
    var r, g, bl, a, n := SumBox(img, x0, x1, y0, y1);
    if a == 0.0 { return CLEAR; }
    p := Pixel(Stored(r / a), Stored(g / a), Stored(bl / a), Stored(a / n as real * 255.0));
  }

  /** A tile of averages; an empty image is an error. */
  method EncodeTile(img: Image) returns (tile: Tile)
    ensures tile.Empty? <==> img.w < 1 || img.h < 1
    ensures tile.Encoded? ==> fresh(tile.pixels)
    ensures tile.Encoded? ==> tile.pixels.Length0 == TileWidth(img) && tile.pixels.Length1 == TileHeight(img)
    ensures tile.Encoded? ==>
      forall dx, dy :: 0 <= dx < tile.pixels.Length0 && 0 <= dy < tile.pixels.Length1 ==> tile.pixels[dx, dy] == TilePixel(img, dx, dy)
  {
    if img.w < 1 || img.h < 1 { return Empty; }
    var scale := 1.0;
    var m := Max(img.w, img.h);
    if m > TILE_SIDE { scale := TILE_SIDE as real / m as real; }
    var dw := Max(1, (img.w as real * scale + 0.5).Floor);
    var dh := Max(1, (img.h as real * scale + 0.5).Floor);
    var dst := new Pixel[dw, dh]((i, j) => CLEAR);
    for dy := 0 to dh
      invariant forall i, j :: 0 <= i < dw && 0 <= j < dy ==> dst[i, j] == TilePixel(img, i, j)
      invariant forall i, j :: 0 <= i < dw && dy <= j < dh ==> dst[i, j] == CLEAR
    {
      FillRow(img, dst, dy);
    }
    tile := Encoded(dst);
  }

  // ---- averages stay between their contributors

  predicate RowWithin(img: Image, ch: Channel, y: int, x0: int, x1: int, lo: real, hi: real) {
    forall x :: x0 <= x < x1 && img.at(x, y).a > 0 ==> lo <= Level(ch, img.at(x, y)) <= hi
  }

  predicate BoxWithin(img: Image, ch: Channel, x0: int, x1: int, y0: int, y1: int, lo: real, hi: real) {
    forall y :: y0 <= y < y1 ==> RowWithin(img, ch, y, x0, x1, lo, hi)
  }

  predicate Between(lo: real, hi: real, w: real, v: real) { lo * w <= v <= hi * w && w >= 0.0 }

  lemma {:induction false} ShareBetween(ch: Channel, p: Pixel, lo: real, hi: real)
    requires p.a > 0 ==> lo <= Level(ch, p) <= hi
    ensures Between(lo, hi, Share(Alpha, p), Share(ch, p))
  {
  }

  lemma {:induction false} Accumulate(lo: real, hi: real, w: real, v: real, w': real, v': real)
    requires Between(lo, hi, w, v) && Between(lo, hi, w', v')
    ensures Between(lo, hi, w + w', v + v')
  {
    assert lo * (w + w') == lo * w + lo * w';
    assert hi * (w + w') == hi * w + hi * w';
  }

  lemma {:induction false} RowBounds(img: Image, ch: Channel, y: int, x0: int, x1: int, lo: real, hi: real)
    requires RowWithin(img, ch, y, x0, x1, lo, hi)
    ensures Between(lo, hi, RowSum(img, Alpha, y, x0, x1), RowSum(img, ch, y, x0, x1))
    decreases x1 - x0
  {
    if x1 > x0 {
      var p := img.at(x1 - 1, y);
      RowBounds(img, ch, y, x0, x1 - 1, lo, hi);
      ShareBetween(ch, p, lo, hi);
      Accumulate(lo, hi, RowSum(img, Alpha, y, x0, x1 - 1), RowSum(img, ch, y, x0, x1 - 1), Share(Alpha, p), Share(ch, p));
    }
  }

  lemma {:induction false} BoxBounds(img: Image, ch: Channel, x0: int, x1: int, y0: int, y1: int, lo: real, hi: real)
    requires BoxWithin(img, ch, x0, x1, y0, y1, lo, hi)
    ensures Between(lo, hi, BoxSum(img, Alpha, x0, x1, y0, y1), BoxSum(img, ch, x0, x1, y0, y1))
    decreases y1 - y0
  {
    if y1 > y0 {
      var y := y1 - 1;
      BoxBounds(img, ch, x0, x1, y0, y, lo, hi);
      RowBounds(img, ch, y, x0, x1, lo, hi);
      Accumulate(lo, hi, BoxSum(img, Alpha, x0, x1, y0, y), BoxSum(img, ch, x0, x1, y0, y), RowSum(img, Alpha, y, x0, x1), RowSum(img, ch, y, x0, x1));
    }
  }

  lemma {:induction false} QuotientWithin(v: real, a: real, lo: real, hi: real)
    requires a > 0.0 && lo * a <= v <= hi * a
    ensures lo <= v / a <= hi
  {
    assert v / a * a == v;
  }

  function Component(ch: Channel, p: Pixel): Byte {
    match ch
    case Red => p.r
    case Green => p.g
    case Blue => p.b
    case Alpha => p.a
  }

  /** Each averaged colour lies between the least and greatest of the visible pixels in its box. */
  lemma {:induction false} AverageBetween(img: Image, ch: Channel, x0: int, x1: int, y0: int, y1: int, lo: Byte, hi: Byte)
    requires x0 < x1 && y0 < y1 && !ch.Alpha?
    requires BoxWithin(img, ch, x0, x1, y0, y1, lo as real, hi as real)
    requires BoxSum(img, Alpha, x0, x1, y0, y1) != 0.0
    ensures lo <= Component(ch, Average(img, x0, x1, y0, y1)) <= hi
  {
    var a, v := BoxSum(img, Alpha, x0, x1, y0, y1), BoxSum(img, ch, x0, x1, y0, y1);
    BoxBounds(img, ch, x0, x1, y0, y1, lo as real, hi as real);
    QuotientWithin(v, a, lo as real, hi as real);
  }

  predicate AlphaWithin(img: Image, x0: int, x1: int, y0: int, y1: int, lo: Byte, hi: Byte) {
    forall x, y :: x0 <= x < x1 && y0 <= y < y1 ==> lo <= img.at(x, y).a <= hi
  }

  /** The share of a run of pixels, each of alpha lo to hi. */
  predicate AlphaMass(lo: real, hi: real, n: int, sum: real) { Between(lo, hi, n as real, sum * 255.0) }

  lemma {:induction false} MassAdds(lo: real, hi: real, n: int, v: real, n': int, v': real)
    requires AlphaMass(lo, hi, n, v) && AlphaMass(lo, hi, n', v')
    ensures AlphaMass(lo, hi, n + n', v + v')
  {
    Accumulate(lo, hi, n as real, v * 255.0, n' as real, v' * 255.0);
    assert (v + v') * 255.0 == v * 255.0 + v' * 255.0;
  }

  lemma {:induction false} RowMass(img: Image, y: int, x0: int, x1: int, lo: Byte, hi: Byte)
    requires x0 <= x1 && forall x :: x0 <= x < x1 ==> lo <= img.at(x, y).a <= hi
    ensures AlphaMass(lo as real, hi as real, x1 - x0, RowSum(img, Alpha, y, x0, x1))
    decreases x1 - x0
  {
    if x1 > x0 {
      var p := img.at(x1 - 1, y);
      RowMass(img, y, x0, x1 - 1, lo, hi);
      assert Share(Alpha, p) * 255.0 == p.a as real;
      MassAdds(lo as real, hi as real, x1 - 1 - x0, RowSum(img, Alpha, y, x0, x1 - 1), 1, Share(Alpha, p));
    }
  }

  lemma {:induction false} BoxMass(img: Image, x0: int, x1: int, y0: int, y1: int, lo: Byte, hi: Byte, n: int)
    requires x0 <= x1 && y0 <= y1 && AlphaWithin(img, x0, x1, y0, y1, lo, hi) && n == (x1 - x0) * (y1 - y0)
    ensures AlphaMass(lo as real, hi as real, n, BoxSum(img, Alpha, x0, x1, y0, y1))
    decreases y1 - y0
  {
    if y1 > y0 {
      var w := x1 - x0;
      BoxMass(img, x0, x1, y0, y1 - 1, lo, hi, n - w);
      RowMass(img, y1 - 1, x0, x1, lo, hi);
      MassAdds(lo as real, hi as real, n - w, BoxSum(img, Alpha, x0, x1, y0, y1 - 1), w, RowSum(img, Alpha, y1 - 1, x0, x1));
    }
  }

  /** The averaged alpha lies between the least and greatest alpha in the box. */
  lemma {:induction false} AlphaBetween(img: Image, x0: int, x1: int, y0: int, y1: int, lo: Byte, hi: Byte)
    requires x0 < x1 && y0 < y1 && AlphaWithin(img, x0, x1, y0, y1, lo, hi)
    ensures lo <= Average(img, x0, x1, y0, y1).a <= hi
  {
    var n, a := (x1 - x0) * (y1 - y0), BoxSum(img, Alpha, x0, x1, y0, y1);
    BoxMass(img, x0, x1, y0, y1, lo, hi, n);
    MeanWithin(a, n, lo, hi);
  }

  lemma {:induction false} MeanWithin(a: real, n: int, lo: Byte, hi: Byte)
    requires n > 0 && AlphaMass(lo as real, hi as real, n, a)
    ensures a == 0.0 ==> lo == 0
    ensures lo <= Stored(a / n as real * 255.0) <= hi
  {
    QuotientWithin(a * 255.0, n as real, lo as real, hi as real);
    assert a / n as real * 255.0 == a * 255.0 / n as real;
  }

  /** A tile pixel is clear for lack of alpha exactly when its whole box is transparent. */
  lemma {:induction false} ClearIff(img: Image, x0: int, x1: int, y0: int, y1: int)
    ensures BoxSum(img, Alpha, x0, x1, y0, y1) >= 0.0
    ensures BoxSum(img, Alpha, x0, x1, y0, y1) == 0.0 <==>
      forall x, y :: x0 <= x < x1 && y0 <= y < y1 ==> img.at(x, y).a == 0
    decreases y1 - y0
  {
    if y1 > y0 {
      ClearIff(img, x0, x1, y0, y1 - 1);
      ClearRowIff(img, y1 - 1, x0, x1);
    }
  }

  lemma {:induction false} ClearRowIff(img: Image, y: int, x0: int, x1: int)
    ensures RowSum(img, Alpha, y, x0, x1) >= 0.0
    ensures RowSum(img, Alpha, y, x0, x1) == 0.0 <==> forall x :: x0 <= x < x1 ==> img.at(x, y).a == 0
    decreases x1 - x0
  {
    if x1 > x0 {
      ClearRowIff(img, y, x0, x1 - 1);
    }
  }

  // ---- small images

  /** A source no larger than the tile: every visible pixel is copied exactly, every transparent one is cleared. */
  lemma {:induction false} SmallImageCopied(img: Image, x: int, y: int)
    requires 0 <= x < img.w <= TILE_SIDE && 0 <= y < img.h <= TILE_SIDE
    ensures TilePixel(img, x, y) == if img.at(x, y).a > 0 then img.at(x, y) else CLEAR
  {
    TileFits(img);
    OneToOne(x, img.w);
    OneToOne(y, img.h);
    OnePixel(img, x, y);
  }

  lemma {:induction false} OneToOne(d: int, s: int)
    requires s > 0
    ensures Start(d, s, s) == d && End(d, s, s) == d + 1
  {
    Whole(d, s);
    Whole(d + 1, s);
    assert d * s == s * d && (d + 1) * s == s * (d + 1);
  }

  lemma {:induction false} SingleBox(img: Image, ch: Channel, x: int, y: int)
    ensures BoxSum(img, ch, x, x + 1, y, y + 1) == Share(ch, img.at(x, y))
  {
    assert RowSum(img, ch, y, x, x) == 0.0 && BoxSum(img, ch, x, x + 1, y, y) == 0.0;
    assert RowSum(img, ch, y, x, x + 1) == RowSum(img, ch, y, x, x) + Share(ch, img.at(x, y));
  }

  lemma {:induction false} OnePixel(img: Image, x: int, y: int)
    ensures Average(img, x, x + 1, y, y + 1) == if img.at(x, y).a > 0 then img.at(x, y) else CLEAR
  {
    SingleBox(img, Red, x, y);
    SingleBox(img, Green, x, y);
    SingleBox(img, Blue, x, y);
    SingleBox(img, Alpha, x, y);
    FromOne(img.at(x, y));
  }

  lemma {:induction false} FromOne(p: Pixel)
    ensures FromSums(Share(Red, p), Share(Green, p), Share(Blue, p), Share(Alpha, p), 1.0) == if p.a > 0 then p else CLEAR
  {
    if p.a > 0 {
      Restored(Red, p);
      Restored(Green, p);
      Restored(Blue, p);
      assert Stored(Share(Alpha, p) / 1.0 * 255.0) == p.a;
    }
  }

  lemma {:induction false} Restored(ch: Channel, p: Pixel)
    requires p.a > 0 && !ch.Alpha?
    ensures Share(Alpha, p) != 0.0 && Stored(Share(ch, p) / Share(Alpha, p)) == Component(ch, p)
  {
    Unweighted(Component(ch, p), Share(Alpha, p), Share(ch, p));
  }

  lemma {:induction false} Unweighted(v: Byte, w: real, x: real)
    requires w > 0.0 && x == v as real * w
    ensures Stored(x / w) == v
  {
    assert x / w == v as real;
  }
}
