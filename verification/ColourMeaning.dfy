/**
 What the integer conversion stands for: BT.601 limited-range Y'CbCr as the standard
 defines it, over the reals, at the picture position of every pixel.
 */
module ColourMeaning {
  import opened Bytes
  import opened ColourConversion

  // ---------------------------------------------------------------- one colour

  /** Recommendation ITU-R BT.601 for eight bits: components from 0 to 255 in, luma from
      16 to 235 and chroma from 16 to 240 out. */
  function StandardY(b: real, g: real, r: real): real {
    16.0 + (65.481 * r + 128.553 * g + 24.966 * b) / 255.0
  }

  function StandardU(b: real, g: real, r: real): real {
    128.0 + (-37.797 * r - 74.203 * g + 112.0 * b) / 255.0
  }

  function StandardV(b: real, g: real, r: real): real {
    128.0 + (112.0 * r - 93.786 * g - 18.214 * b) / 255.0
  }

  /** The standard's value, rounded down, with 8-bit weights. */
  lemma LumaIsNear(b: Byte, g: Byte, r: Byte)
    ensures -1.13 < Luma(b, g, r) as real - StandardY(b as real, g as real, r as real) < 0.27
  {
    var n := 66 * r + 129 * g + 25 * b;
    Floored(n);
    assert n as real == 66.0 * r as real + 129.0 * g as real + 25.0 * b as real;
  }

  lemma ChromaUIsNear(b: Byte, g: Byte, r: Byte)
    ensures -1.5 < ChromaU(b, g, r) as real - StandardU(b as real, g as real, r as real) < 0.5
  {
    var n := -38 * r - 74 * g + 112 * b;
    Floored(n);
    assert n as real == -38.0 * r as real - 74.0 * g as real + 112.0 * b as real;
  }

  lemma ChromaVIsNear(b: Byte, g: Byte, r: Byte)
    ensures -1.5 < ChromaV(b, g, r) as real - StandardV(b as real, g as real, r as real) < 0.5
  {
    var n := 112 * r - 94 * g - 18 * b;
    Floored(n);
    assert n as real == 112.0 * r as real - 94.0 * g as real - 18.0 * b as real;
  }

  lemma Floored(n: int)
    ensures n as real / 256.0 - 1.0 < (n / 256) as real <= n as real / 256.0
  {
    assert n == 256 * (n / 256) + n % 256;
  }

  /** Greys have no colour, and the weights of luma do not distort them. */
  lemma GreysAreGrey(v: Byte)
    ensures ChromaU(v, v, v) == 128 && ChromaV(v, v, v) == 128
    ensures Luma(0, 0, 0) == 16 && Luma(255, 255, 255) == 235
  {
  }

  // ------------------------------------------------------------------- pictures

  /** Where column `x` of row `y` lies in a plane `w` wide. */
  function Index(x: nat, y: nat, w: nat): nat {
    y * w + x
  }

  lemma {:induction false} RowsFit(w: nat, y: nat, h: nat)
    requires y < h
    ensures y * w + w <= h * w
    decreases h
  {
    assert h * w == (h - 1) * w + w;
    if y < h - 1 {
      RowsFit(w, y, h - 1);
    }
  }

  lemma PixelInside(w: nat, h: nat, x: nat, y: nat)
    requires x < w && y < h
    ensures 4 * (y * w + x) + 4 <= w * h * 4 && y * w + x < w * h
  {
    RowsFit(w, y, h);
    assert w * h == h * w;
  }

  /** Component `c` (blue, green, red) of the pixel in column `x` of row `y`. */
  function Pixel(bgra: Octets, w: nat, h: nat, x: nat, y: nat, c: nat): Byte
    requires |bgra| == w * h * 4 && x < w && y < h && c < 3
  {
    PixelInside(w, h, x, y);
    bgra[4 * (y * w + x) + c]
  }

  /** Component `c` of the mean colour of the 2 x 2 block in column `x` of block row `y`. */
  function BlockColour(bgra: Octets, w: nat, h: nat, x: nat, y: nat, c: nat): real
    requires |bgra| == w * h * 4 && 2 * x + 1 < w && 2 * y + 1 < h && c < 3
  {
    (Pixel(bgra, w, h, 2 * x, 2 * y, c) as real + Pixel(bgra, w, h, 2 * x + 1, 2 * y, c) as real
     + Pixel(bgra, w, h, 2 * x, 2 * y + 1, c) as real + Pixel(bgra, w, h, 2 * x + 1, 2 * y + 1, c) as real) / 4.0
  }

  /** `i` times `n`, summed. */
  function Rows(i: nat, n: nat): nat {
    if i == 0 then 0 else Rows(i - 1, n) + n
  }

  lemma {:induction false} RowsIsProduct(i: nat, n: nat)
    ensures Rows(i, n) == i * n
  {
    if i > 0 {
      RowsIsProduct(i - 1, n);
      assert i * n == (i - 1) * n + n;
    }
  }

  /** Byte `k` of row pair `i` of the conversion. */
  lemma {:induction false} FullAt(p: Plane, bgra: Octets, w: nat, i: nat, k: nat)
    requires w > 0 && i < Pairs(|bgra|, w) && k < Stride(p, w)
    ensures Rows(i, 8 * w) + 8 * w <= |bgra| && Rows(i, Stride(p, w)) + k < |Full(p, bgra, w)|
    ensures Full(p, bgra, w)[Rows(i, Stride(p, w)) + k] == PairOf(p, bgra[Rows(i, 8 * w)..Rows(i, 8 * w) + 8 * w], w)[k]
    decreases i
  {
    hide PairOf, Stride, Full, Pairs;
    FullBegins(p, bgra, w);
    var first, rest := PairOf(p, bgra[..8 * w], w), bgra[8 * w..];
    if i == 0 {
      assert bgra[0..0 + 8 * w] == bgra[..8 * w];
      assert Full(p, bgra, w)[0 + k] == first[k];
    } else {
      var at, n := Rows(i - 1, 8 * w), Rows(i - 1, Stride(p, w)) + k;
      FullAt(p, rest, w, i - 1, k);
      assert rest[at..at + 8 * w] == bgra[at + 8 * w..at + 8 * w + 8 * w];
      assert Full(p, bgra, w)[|first| + n] == Full(p, rest, w)[n];
    }
  }

  lemma FullBegins(p: Plane, bgra: Octets, w: nat)
    requires w > 0 && Pairs(|bgra|, w) > 0
    ensures |bgra| >= 8 * w && Pairs(|bgra|, w) == Pairs(|bgra[8 * w..]|, w) + 1
    ensures |PairOf(p, bgra[..8 * w], w)| == Stride(p, w)
    ensures Full(p, bgra, w) == PairOf(p, bgra[..8 * w], w) + Full(p, bgra[8 * w..], w)
  {
    hide PairOf, Stride;
  }

  /** Where a pixel lies in its row pair. */
  lemma PixelInPair(w: nat, h: nat, x: nat, y: nat)
    requires x < w && y < h && h % 2 == 0
    ensures var i, k := y / 2, (y % 2) * w + x;
            i < h / 2 && k < 2 * w && y * w + x == Rows(i, 2 * w) + k && 4 * (y * w + x) == Rows(i, 8 * w) + 4 * k
  {
    RowsIsProduct(y / 2, 2 * w);
    RowsIsProduct(y / 2, 8 * w);
    TwoRows(w, y / 2, y % 2);
    assert y == 2 * (y / 2) + y % 2;
    if y % 2 == 0 {
      assert (y % 2) * w == 0;
    } else {
      assert (y % 2) * w == w;
    }
  }

  lemma TwoRows(w: nat, i: nat, r: nat)
    ensures (2 * i + r) * w == 2 * (i * w) + r * w && i * (2 * w) == 2 * (i * w) && i * (8 * w) == 8 * (i * w)
  {
  }

  lemma LumaOfPair(bgra: Octets, w: nat, at: nat, k: nat, n: nat)
    requires k < 2 * w && at + 8 * w <= |bgra| && 4 * n == at + 4 * k && 4 * n + 4 <= |bgra|
    ensures PairOf(PlaneY, bgra[at..at + 8 * w], w)[k] == Luma(bgra[4 * n], bgra[4 * n + 1], bgra[4 * n + 2])
  {
  }

  /** The luma plane has at each pixel's place the luma of that pixel. */
  lemma LumaPlaneAt(bgra: Octets, w: nat, h: nat, x: nat, y: nat)
    requires EvenSize(w, h) && |bgra| == w * h * 4 && x < w && y < h
    ensures Index(x, y, w) < |Full(PlaneY, bgra, w)|
    ensures Full(PlaneY, bgra, w)[Index(x, y, w)]
            == Luma(Pixel(bgra, w, h, x, y, 0), Pixel(bgra, w, h, x, y, 1), Pixel(bgra, w, h, x, y, 2))
  {
    hide Full, Pairs, Whole, Covered, Luma, PairOf, Rows;
    PixelInside(w, h, x, y);
    EvenFramesAreWhole(w, h);
    PixelInPair(w, h, x, y);
    FullAt(PlaneY, bgra, w, y / 2, (y % 2) * w + x);
    LumaOfPair(bgra, w, Rows(y / 2, 8 * w), (y % 2) * w + x, y * w + x);
  }

  /** Where the four pixels of a block lie. */
  lemma BlockInPair(w: nat, h: nat, x: nat, y: nat)
    requires 2 * x + 1 < w && 2 * y + 1 < h
    ensures var at := Rows(y, 8 * w);
            && at + 8 * w <= w * h * 4
            && 4 * ((2 * y) * w + 2 * x) == at + 8 * x
            && 4 * ((2 * y) * w + (2 * x + 1)) == at + 8 * x + 4
            && 4 * ((2 * y + 1) * w + 2 * x) == at + 4 * w + 8 * x
            && 4 * ((2 * y + 1) * w + (2 * x + 1)) == at + 4 * w + 8 * x + 4
  {
    hide Rows;
    RowsIsProduct(y, 8 * w);
    TwoRows(w, y, 0);
    TwoRows(w, y, 1);
    RowsFit(w, 2 * y + 1, h);
    assert w * h == h * w;
  }

  lemma MeanIsNear(a: Byte, b: Byte, c: Byte, d: Byte)
    ensures -0.5 <= Mean(a, b, c, d) as real - (a as real + b as real + c as real + d as real) / 4.0 <= 0.5
    ensures a == b == c == d ==> Mean(a, b, c, d) == a
  {
    var n := a + b + c + d + 2;
    assert n == 4 * (n / 4) + n % 4;
  }

  /** The rounded means the chroma of a block is made from. */
  function BlockOf(bgra: Octets, w: nat, h: nat, x: nat, y: nat, c: nat): (m: Byte)
    requires |bgra| == w * h * 4 && 2 * x + 1 < w && 2 * y + 1 < h && c < 3
    ensures -0.5 <= m as real - BlockColour(bgra, w, h, x, y, c) <= 0.5
  {
    var p, q := Pixel(bgra, w, h, 2 * x, 2 * y, c), Pixel(bgra, w, h, 2 * x + 1, 2 * y, c);
    var r, s := Pixel(bgra, w, h, 2 * x, 2 * y + 1, c), Pixel(bgra, w, h, 2 * x + 1, 2 * y + 1, c);
    MeanIsNear(p, q, r, s);
    Mean(p, q, r, s)
  }

  lemma PixelLies(bgra: Octets, w: nat, h: nat, x: nat, y: nat, c: nat, at: nat)
    requires |bgra| == w * h * 4 && x < w && y < h && c < 3 && at == 4 * (y * w + x)
    ensures at + c < |bgra| && Pixel(bgra, w, h, x, y, c) == bgra[at + c]
  {
    PixelInside(w, h, x, y);
  }

  lemma MeanLies(bgra: Octets, w: nat, at: nat, x: nat, c: nat)
    requires at + 8 * w <= |bgra| && 2 * x + 1 < w && c < 3
    ensures BlockMean(bgra[at..at + 8 * w], w, x, c)
            == Mean(bgra[at + 8 * x + c], bgra[at + 8 * x + 4 + c], bgra[at + 4 * w + 8 * x + c], bgra[at + 4 * w + 8 * x + 4 + c])
  {
  }

  lemma MeanOfPair(bgra: Octets, w: nat, h: nat, x: nat, y: nat, c: nat)
    requires |bgra| == w * h * 4 && 2 * x + 1 < w && 2 * y + 1 < h && c < 3
    ensures Rows(y, 8 * w) + 8 * w <= |bgra|
    ensures BlockMean(bgra[Rows(y, 8 * w)..Rows(y, 8 * w) + 8 * w], w, x, c) == BlockOf(bgra, w, h, x, y, c)
  {
    hide Rows, BlockMean, Mean, Pixel, BlockColour;
    var at := Rows(y, 8 * w);
    BlockInPair(w, h, x, y);
    MeanLies(bgra, w, at, x, c);
    PixelLies(bgra, w, h, 2 * x, 2 * y, c, at + 8 * x);
    PixelLies(bgra, w, h, 2 * x + 1, 2 * y, c, at + 8 * x + 4);
    PixelLies(bgra, w, h, 2 * x, 2 * y + 1, c, at + 4 * w + 8 * x);
    PixelLies(bgra, w, h, 2 * x + 1, 2 * y + 1, c, at + 4 * w + 8 * x + 4);
  }

  /** The chroma planes have at each block's place the chroma of its mean colour. */
  lemma ChromaPlanesAt(bgra: Octets, w: nat, h: nat, x: nat, y: nat)
    requires EvenSize(w, h) && |bgra| == w * h * 4 && x < w / 2 && y < h / 2
    ensures Index(x, y, w / 2) < |Full(PlaneU, bgra, w)| && Index(x, y, w / 2) < |Full(PlaneV, bgra, w)|
    ensures var b, g, r := BlockOf(bgra, w, h, x, y, 0), BlockOf(bgra, w, h, x, y, 1), BlockOf(bgra, w, h, x, y, 2);
            && Full(PlaneU, bgra, w)[Index(x, y, w / 2)] == ChromaU(b, g, r)
            && Full(PlaneV, bgra, w)[Index(x, y, w / 2)] == ChromaV(b, g, r)
  {
    hide Full, Pairs, Whole, Covered, ChromaU, ChromaV, BlockMean, BlockOf, Rows;
    EvenFramesAreWhole(w, h);
    RowsIsProduct(y, w / 2);
    FullAt(PlaneU, bgra, w, y, x);
    FullAt(PlaneV, bgra, w, y, x);
    MeanOfPair(bgra, w, h, x, y, 0);
    MeanOfPair(bgra, w, h, x, y, 1);
    MeanOfPair(bgra, w, h, x, y, 2);
  }

  // ---------------------------------------------------------------- main results

  /** Every luma byte of a converted frame is the standard's luma of the pixel at its
      place, rounded down, but for little more than an eighth. */
  lemma LumaPlaneIsStandard(bgra: Octets, w: nat, h: nat, x: nat, y: nat)
    requires EvenSize(w, h) && |bgra| == w * h * 4 && x < w && y < h
    ensures Index(x, y, w) < |Full(PlaneY, bgra, w)|
    ensures var b, g, r := Pixel(bgra, w, h, x, y, 0), Pixel(bgra, w, h, x, y, 1), Pixel(bgra, w, h, x, y, 2);
            -1.13 < Full(PlaneY, bgra, w)[Index(x, y, w)] as real - StandardY(b as real, g as real, r as real) < 0.27
  {
    hide Full, EvenSize, Pixel, Luma, StandardY, Index;
    LumaPlaneAt(bgra, w, h, x, y);
    LumaIsNear(Pixel(bgra, w, h, x, y, 0), Pixel(bgra, w, h, x, y, 1), Pixel(bgra, w, h, x, y, 2));
  }

  /** Every chroma byte is within two of the standard's chroma of its block's mean colour. */
  lemma ChromaPlanesAreStandard(bgra: Octets, w: nat, h: nat, x: nat, y: nat)
    requires EvenSize(w, h) && |bgra| == w * h * 4 && x < w / 2 && y < h / 2
    ensures Index(x, y, w / 2) < |Full(PlaneU, bgra, w)| && Index(x, y, w / 2) < |Full(PlaneV, bgra, w)|
    ensures var b, g, r := BlockColour(bgra, w, h, x, y, 0), BlockColour(bgra, w, h, x, y, 1), BlockColour(bgra, w, h, x, y, 2);
            && -2.0 < Full(PlaneU, bgra, w)[Index(x, y, w / 2)] as real - StandardU(b, g, r) < 1.0
            && -2.0 < Full(PlaneV, bgra, w)[Index(x, y, w / 2)] as real - StandardV(b, g, r) < 1.0
  {
    hide Full, BlockColour, BlockOf, ChromaU, ChromaV, Index;
    ChromaPlanesAt(bgra, w, h, x, y);
    var b, g, r := BlockOf(bgra, w, h, x, y, 0), BlockOf(bgra, w, h, x, y, 1), BlockOf(bgra, w, h, x, y, 2);
    ChromaUIsNear(b, g, r);
    ChromaVIsNear(b, g, r);
  }

  /** A block of one colour has exactly the chroma of that colour. */
  lemma OneColourBlock(bgra: Octets, w: nat, h: nat, x: nat, y: nat, b: Byte, g: Byte, r: Byte)
    requires EvenSize(w, h) && |bgra| == w * h * 4 && x < w / 2 && y < h / 2
    requires forall i, j :: 2 * x <= i <= 2 * x + 1 && 2 * y <= j <= 2 * y + 1 ==>
               Pixel(bgra, w, h, i, j, 0) == b && Pixel(bgra, w, h, i, j, 1) == g && Pixel(bgra, w, h, i, j, 2) == r
    ensures Index(x, y, w / 2) < |Full(PlaneU, bgra, w)| && Index(x, y, w / 2) < |Full(PlaneV, bgra, w)|
    ensures Full(PlaneU, bgra, w)[Index(x, y, w / 2)] == ChromaU(b, g, r)
    ensures Full(PlaneV, bgra, w)[Index(x, y, w / 2)] == ChromaV(b, g, r)
  {
    hide Full, Pixel, BlockColour, ChromaU, ChromaV, Index, Mean;
    ChromaPlanesAt(bgra, w, h, x, y);
    MeanIsNear(b, b, b, b);
    MeanIsNear(g, g, g, g);
    MeanIsNear(r, r, r, r);
  }
}
