/** What a tile pixel is: the mean of its box, weighted by alpha and rounded to the nearest level; and how near the tile's sides are. */
module TileMean {
  import opened Utf8
  import opened BrandTile

  /** A channel of a pixel times its alpha; for the alpha channel the alpha alone. */
  function Weighted(ch: Channel, p: Pixel): int {
    match ch
    case Red => p.r as int * p.a as int
    case Green => p.g as int * p.a as int
    case Blue => p.b as int * p.a as int
    case Alpha => p.a as int
  }

  function RowTotal(img: Image, ch: Channel, y: int, x0: int, x1: int): int
    decreases x1 - x0
  {
    if x1 <= x0 then 0 else RowTotal(img, ch, y, x0, x1 - 1) + Weighted(ch, img.at(x1 - 1, y))
  }

  /** The sum over the pixels of a box. */
  function Total(img: Image, ch: Channel, x0: int, x1: int, y0: int, y1: int): int
    decreases y1 - y0
  {
    if y1 <= y0 then 0 else Total(img, ch, x0, x1, y0, y1 - 1) + RowTotal(img, ch, y1 - 1, x0, x1)
  }

  predicate Parts255(sum: real, total: int) { sum * 255.0 == total as real }

  lemma {:induction false} PartsAdd(a: real, n: int, b: real, m: int)
    requires Parts255(a, n) && Parts255(b, m)
    ensures Parts255(a + b, n + m)
  {
  }

  lemma {:induction false} ShareIs(ch: Channel, p: Pixel)
    ensures Parts255(Share(ch, p), Weighted(ch, p))
  {
    var level := match ch case Red => p.r as int case Green => p.g as int case Blue => p.b as int case Alpha => 1;
    LevelShare(level, p.a as int);
  }

  lemma {:induction false} LevelShare(level: int, a: int)
    ensures level as real * (a as real / 255.0) * 255.0 == (level * a) as real
  {
    var w := a as real / 255.0;
    assert w * 255.0 == a as real;
    assert level as real * w * 255.0 == level as real * (w * 255.0);
  }

  lemma {:induction false} RowSumIs(img: Image, ch: Channel, y: int, x0: int, x1: int)
    ensures Parts255(RowSum(img, ch, y, x0, x1), RowTotal(img, ch, y, x0, x1))
    decreases x1 - x0
  {
    if x0 < x1 {
      RowSumIs(img, ch, y, x0, x1 - 1);
      ShareIs(ch, img.at(x1 - 1, y));
      PartsAdd(RowSum(img, ch, y, x0, x1 - 1), RowTotal(img, ch, y, x0, x1 - 1), Share(ch, img.at(x1 - 1, y)), Weighted(ch, img.at(x1 - 1, y)));
    }
  }

  lemma {:induction false} BoxSumIs(img: Image, ch: Channel, x0: int, x1: int, y0: int, y1: int)
    ensures Parts255(BoxSum(img, ch, x0, x1, y0, y1), Total(img, ch, x0, x1, y0, y1))
    decreases y1 - y0
  {
    if y0 < y1 {
      BoxSumIs(img, ch, x0, x1, y0, y1 - 1);
      RowSumIs(img, ch, y1 - 1, x0, x1);
      PartsAdd(BoxSum(img, ch, x0, x1, y0, y1 - 1), Total(img, ch, x0, x1, y0, y1 - 1),
               RowSum(img, ch, y1 - 1, x0, x1), RowTotal(img, ch, y1 - 1, x0, x1));
    }
  }

  /** v is total / n, rounded to the nearest whole number, halves upwards. */
  predicate Nearest(v: int, total: int, n: int) { -n < 2 * (v * n - total) <= n }

  lemma {:induction false} FloorNearest(v: real, total: int, n: int)
    requires n > 0 && v * n as real == total as real
    ensures Nearest((v + 0.5).Floor, total, n)
  {
    var k := (v + 0.5).Floor;
    assert k as real <= v + 0.5 < k as real + 1.0;
    RealProduct(k, n);
    Steps(k as real, v, n as real, (k * n) as real, total as real);
    InWholes(k * n, total, n, (k * n) as real, total as real);
  }

  lemma {:induction false} RealProduct(k: int, n: int)
    ensures (k * n) as real == k as real * n as real
  {
  }

  lemma {:induction false} InWholes(p: int, total: int, n: int, x: real, y: real)
    requires x == p as real && y == total as real && -(n as real) < 2.0 * (x - y) <= n as real
    ensures -n < 2 * (p - total) <= n
  {
  }

  lemma {:induction false} Steps(k: real, v: real, m: real, x: real, y: real)
    requires m > 0.0 && k <= v + 0.5 < k + 1.0 && x == k * m && y == v * m
    ensures -m < 2.0 * (x - y) <= m
  {
    Apart(k, v, m, x, y);
    Halves(k - v, m, x - y);
  }

  lemma {:induction false} Apart(k: real, v: real, m: real, x: real, y: real)
    requires x == k * m && y == v * m
    ensures x - y == (k - v) * m
  {
  }

  lemma {:induction false} Halves(d: real, m: real, z: real)
    requires m > 0.0 && -0.5 < d <= 0.5 && z == d * m
    ensures -m < 2.0 * z <= m
  {
    Stretched(-0.5, d, m);
    Stretched(d, 0.5, m);
  }

  lemma {:induction false} Stretched(a: real, b: real, m: real)
    requires m > 0.0 && a <= b
    ensures a * m <= b * m && (a < b ==> a * m < b * m)
  {
  }

  lemma {:induction false} Means(img: Image, x0: int, x1: int, y0: int, y1: int)
    requires x0 < x1 && y0 < y1 && Total(img, Alpha, x0, x1, y0, y1) > 0
    ensures BoxSum(img, Alpha, x0, x1, y0, y1) > 0.0
  {
    BoxSumIs(img, Alpha, x0, x1, y0, y1);
  }

  lemma {:induction false} RatioIs(s: real, total: int, a: real, n: int)
    requires Parts255(s, total) && Parts255(a, n) && a > 0.0
    ensures n > 0 && s / a * n as real == total as real
  {
    var q := s / a;
    assert q * a == s;
    assert q * (a * 255.0) == q * a * 255.0;
  }

  /** Bytes in, a byte out: no level is cut off at either end. */
  lemma {:induction false} StoredNearest(v: real, total: int, n: int)
    requires n > 0 && v * n as real == total as real && 0.0 <= v <= 255.0
    ensures Nearest(Stored(v) as int, total, n)
  {
    FloorNearest(v, total, n);
  }

  lemma {:induction false} ProductRange(level: int, a: int)
    requires 0 <= level <= 255 && 0 <= a
    ensures 0 <= level * a <= 255 * a
  {
  }

  lemma {:induction false} WeightedRange(ch: Channel, p: Pixel)
    ensures 0 <= Weighted(ch, p) <= 255 * Weighted(Alpha, p) && Weighted(Alpha, p) <= 255
  {
    ProductRange(p.r as int, p.a as int);
    ProductRange(p.g as int, p.a as int);
    ProductRange(p.b as int, p.a as int);
  }

  lemma {:induction false} RowRange(img: Image, ch: Channel, y: int, x0: int, x1: int)
    requires x0 <= x1
    ensures 0 <= RowTotal(img, ch, y, x0, x1) <= 255 * RowTotal(img, Alpha, y, x0, x1)
    ensures RowTotal(img, Alpha, y, x0, x1) <= 255 * (x1 - x0)
    decreases x1 - x0
  {
    if x0 < x1 {
      RowRange(img, ch, y, x0, x1 - 1);
      WeightedRange(ch, img.at(x1 - 1, y));
    }
  }

  lemma {:induction false} TotalRange(img: Image, ch: Channel, x0: int, x1: int, y0: int, y1: int, n: int)
    requires x0 <= x1 && y0 <= y1 && n == (x1 - x0) * (y1 - y0)
    ensures 0 <= Total(img, ch, x0, x1, y0, y1) <= 255 * Total(img, Alpha, x0, x1, y0, y1)
    ensures Total(img, Alpha, x0, x1, y0, y1) <= 255 * n
    decreases y1 - y0
  {
    if y0 < y1 {
      TotalRange(img, ch, x0, x1, y0, y1 - 1, n - (x1 - x0));
      RowRange(img, ch, y1 - 1, x0, x1);
    }
  }

  lemma {:induction false} QuotientRange(v: real, total: int, n: int)
    requires n > 0 && v * n as real == total as real && 0 <= total <= 255 * n
    ensures 0.0 <= v <= 255.0
  {
    if v < 0.0 { Stretched(v, 0.0, n as real); }
    if v > 255.0 { Stretched(255.0, v, n as real); }
  }

  lemma {:induction false} ColourNearest(img: Image, ch: Channel, x0: int, x1: int, y0: int, y1: int)
    requires x0 < x1 && y0 < y1 && BoxSum(img, Alpha, x0, x1, y0, y1) > 0.0
    ensures Nearest(Stored(BoxSum(img, ch, x0, x1, y0, y1) / BoxSum(img, Alpha, x0, x1, y0, y1)) as int,
                    Total(img, ch, x0, x1, y0, y1), Total(img, Alpha, x0, x1, y0, y1))
  {
    var s, a := BoxSum(img, ch, x0, x1, y0, y1), BoxSum(img, Alpha, x0, x1, y0, y1);
    BoxSumIs(img, ch, x0, x1, y0, y1);
    BoxSumIs(img, Alpha, x0, x1, y0, y1);
    RatioIs(s, Total(img, ch, x0, x1, y0, y1), a, Total(img, Alpha, x0, x1, y0, y1));
    TotalRange(img, ch, x0, x1, y0, y1, (x1 - x0) * (y1 - y0));
    QuotientRange(s / a, Total(img, ch, x0, x1, y0, y1), Total(img, Alpha, x0, x1, y0, y1));
    StoredNearest(s / a, Total(img, ch, x0, x1, y0, y1), Total(img, Alpha, x0, x1, y0, y1));
  }

  lemma {:induction false} AlphaNearest(a: real, total: int, n: int)
    requires Parts255(a, total) && n > 0 && 0 <= total <= 255 * n
    ensures Nearest(Stored(a / n as real * 255.0) as int, total, n)
  {
    var q := a / n as real;
    assert q * n as real == a;
    assert q * 255.0 * n as real == q * n as real * 255.0;
    QuotientRange(q * 255.0, total, n);
    StoredNearest(q * 255.0, total, n);
  }

  lemma {:induction false} AlphaOf(img: Image, x0: int, x1: int, y0: int, y1: int, n: int)
    requires x0 < x1 && y0 < y1 && n == (x1 - x0) * (y1 - y0) > 0
    ensures Nearest(Stored(BoxSum(img, Alpha, x0, x1, y0, y1) / n as real * 255.0) as int, Total(img, Alpha, x0, x1, y0, y1), n)
  {
    BoxSumIs(img, Alpha, x0, x1, y0, y1);
    TotalRange(img, Alpha, x0, x1, y0, y1, n);
    AlphaNearest(BoxSum(img, Alpha, x0, x1, y0, y1), Total(img, Alpha, x0, x1, y0, y1), n);
  }

  lemma {:induction false} Area(w: int, h: int)
    requires w > 0 && h > 0
    ensures w * h > 0
  {
  }

  lemma {:induction false} FromVisible(r: real, g: real, b: real, a: real, n: real)
    requires a > 0.0 && n > 0.0
    ensures FromSums(r, g, b, a, n) == Pixel(Stored(r / a), Stored(g / a), Stored(b / a), Stored(a / n * 255.0))
  {
  }

  /**
   A tile pixel over a box that is not wholly transparent: each colour is the mean of the box
   weighted by alpha, and the alpha is the plain mean, all rounded to the nearest level.
   */
  lemma {:induction false} PixelIsMean(img: Image, x0: int, x1: int, y0: int, y1: int)
    requires x0 < x1 && y0 < y1 && Total(img, Alpha, x0, x1, y0, y1) > 0
    ensures var p := Average(img, x0, x1, y0, y1); var a := Total(img, Alpha, x0, x1, y0, y1);
      && Nearest(p.r as int, Total(img, Red, x0, x1, y0, y1), a)
      && Nearest(p.g as int, Total(img, Green, x0, x1, y0, y1), a)
      && Nearest(p.b as int, Total(img, Blue, x0, x1, y0, y1), a)
      && Nearest(p.a as int, a, (x1 - x0) * (y1 - y0))
  {
    Area(x1 - x0, y1 - y0);
    Means(img, x0, x1, y0, y1);
    FromVisible(BoxSum(img, Red, x0, x1, y0, y1), BoxSum(img, Green, x0, x1, y0, y1), BoxSum(img, Blue, x0, x1, y0, y1),
                BoxSum(img, Alpha, x0, x1, y0, y1), ((x1 - x0) * (y1 - y0)) as real);
    ColourNearest(img, Red, x0, x1, y0, y1);
    ColourNearest(img, Green, x0, x1, y0, y1);
    ColourNearest(img, Blue, x0, x1, y0, y1);
    AlphaOf(img, x0, x1, y0, y1, (x1 - x0) * (y1 - y0));
  }

  /** The mean of the pixels in columns x0 to x1 and rows y0 to y1; transparent when they all are. */
  predicate IsMean(p: Pixel, img: Image, x0: int, x1: int, y0: int, y1: int) {
    var a := Total(img, Alpha, x0, x1, y0, y1);
    if a == 0 then p == Pixel(0, 0, 0, 0)
    else
      && Nearest(p.r as int, Total(img, Red, x0, x1, y0, y1), a)
      && Nearest(p.g as int, Total(img, Green, x0, x1, y0, y1), a)
      && Nearest(p.b as int, Total(img, Blue, x0, x1, y0, y1), a)
      && Nearest(p.a as int, a, (x1 - x0) * (y1 - y0))
  }

  /** Column dx and row dy of a tile stand for the dx-th and dy-th equal parts of the image, to the whole pixel. */
  lemma {:induction false} TileIsMean(img: Image, dx: nat, dy: nat, x0: int, x1: int, y0: int, y1: int)
    requires img.w >= 1 && img.h >= 1 && dx < TileWidth(img) && dy < TileHeight(img)
    requires x0 == dx * img.w / TileWidth(img) && x1 == (dx + 1) * img.w / TileWidth(img)
    requires y0 == dy * img.h / TileHeight(img) && y1 == (dy + 1) * img.h / TileHeight(img)
    ensures x0 < x1 && y0 < y1 && IsMean(TilePixel(img, dx, dy), img, x0, x1, y0, y1)
  {
    TileFits(img);
    BoxesAdjoin(dx, img.w, TileWidth(img));
    BoxesAdjoin(dy, img.h, TileHeight(img));
    AverageIsMean(img, x0, x1, y0, y1);
  }

  lemma {:induction false} AverageIsMean(img: Image, x0: int, x1: int, y0: int, y1: int)
    requires x0 < x1 && y0 < y1
    ensures IsMean(Average(img, x0, x1, y0, y1), img, x0, x1, y0, y1)
  {
    TotalRange(img, Alpha, x0, x1, y0, y1, (x1 - x0) * (y1 - y0));
    if Total(img, Alpha, x0, x1, y0, y1) > 0 {
      PixelIsMean(img, x0, x1, y0, y1);
    } else {
      BoxSumIs(img, Alpha, x0, x1, y0, y1);
    }
  }

  // ---- the tile's proportions

  /** The side of an image whose longer side is m: scaled by 240 / m and rounded to the nearest pixel, but never to none. */
  predicate ScaledTo(side: int, s: int, m: int) { Nearest(side, s * 240, m) || (side == 1 && s * 480 < m) }

  lemma {:induction false} SideIsScaled(s: nat, m: nat, k: real)
    requires m > 0 && k * m as real == 240.0
    ensures ScaledTo(Side(s, k), s, m)
  {
    var v := Times(s as real, k);
    assert v * m as real == s as real * (k * m as real);
    assert v * m as real == (s * 240) as real;
    FloorNearest(v, s * 240, m);
    if (v + 0.5).Floor < 1 { BelowHalf(v, m); }
  }

  lemma {:induction false} BelowHalf(v: real, m: nat)
    requires m > 0 && v < 0.5
    ensures v * m as real * 2.0 < m as real
  {
    Stretched(v, 0.5, m as real);
  }

  /** A tile keeps the proportions of its image to the nearest pixel. */
  lemma {:induction false} KeepsProportions(img: Image)
    requires img.w >= 1 && img.h >= 1
    ensures var m := if img.w < img.h then img.h else img.w;
      if m <= 240 then TileWidth(img) == img.w && TileHeight(img) == img.h
      else ScaledTo(TileWidth(img), img.w, m) && ScaledTo(TileHeight(img), img.h, m)
  {
    var m := Max(img.w, img.h);
    TileFits(img);
    if m > 240 {
      var k := Scale(img);
      assert k * m as real == 240.0;
      SideIsScaled(img.w, m, k);
      SideIsScaled(img.h, m, k);
    }
  }
}
