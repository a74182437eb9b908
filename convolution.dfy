/**
 * `blur_image`: a 7 × 7 weighted-sum convolution over the "valid" region of a
 * padded image. Sums are integers here: every weighted sum is at most
 * 84 · 255 = 21420 < 2^24, so the `float` accumulation of the original is
 * exact, and truncating the quotient by 82 equals integer floor division.
 */
module Convolution {
  import opened Pixels
  import opened Grid

  /** The weight table of `blur_image`; entry [ki + 3][kj + 3] weighs the pixel at offset (ki, kj). */
  const Kernel: seq<seq<int>> := [
    [1, 1, 1, 1, 1, 1, 1],
    [1, 2, 2, 2, 2, 2, 1],
    [1, 2, 3, 3, 3, 2, 1],
    [1, 2, 3, 4, 3, 2, 1],
    [1, 2, 3, 3, 3, 2, 1],
    [1, 2, 2, 2, 2, 2, 1],
    [1, 1, 1, 1, 1, 1, 1]
  ]

  /** `kernel_sum`, the constant every weighted sum is divided by. */
  const Divisor: nat := 82

  /** Weight of window offset (ki, kj), both in -3 .. 3: the table is a pyramid, 4 minus the offset's ring number. */
  function Weight(ki: int, kj: int): (w: nat)
    requires -3 <= ki <= 3 && -3 <= kj <= 3
    ensures w == 4 - Ring(ki, kj)
  {
    Kernel[ki + 3][kj + 3]
  }

  /** Chebyshev distance of offset (ki, kj) from the window centre. */
  function Ring(ki: int, kj: int): nat
  {
    var a := if ki < 0 then -ki else ki;
    var b := if kj < 0 then -kj else kj;
    if a < b then b else a
  }

  /** Sum of the weights of the first n offsets (-3 .. n - 4) of kernel row ki. */
  function WeightRowSum(ki: int, n: nat): nat
    requires -3 <= ki <= 3 && n <= 7
  {
    if n == 0 then 0 else WeightRowSum(ki, n - 1) + Weight(ki, n - 4)
  }

  /** Sum of the weights of the first m kernel rows. */
  function WeightSum(m: nat): nat
    requires m <= 7
  {
    if m == 0 then 0 else WeightSum(m - 1) + WeightRowSum(m - 4, 7)
  }

  /** The weights add up to 84, not to the divisor 82 that the sums are normalised by. */
  lemma KernelWeightsSumTo84()
    ensures WeightSum(7) == 84 != Divisor
  {
    KernelPrefixIsWeightSum(7);
  }

  /** Running totals of the table's rows: the first m rows weigh KernelPrefix(m) together. */
  function KernelPrefix(m: nat): nat
    requires m <= 7
  {
    [0, 7, 19, 34, 50, 65, 77, 84][m]
  }

  lemma {:induction false} KernelPrefixIsWeightSum(m: nat)
    requires m <= 7
    ensures WeightSum(m) == KernelPrefix(m)
  {
    if m > 0 {
      KernelPrefixIsWeightSum(m - 1);
      KernelPrefixStep(m);
    }
  }

  /** Row m - 4 of the table adds KernelPrefix(m) - KernelPrefix(m - 1) to the running total. */
  lemma KernelPrefixStep(m: nat)
    requires 1 <= m <= 7
    ensures KernelPrefix(m) == KernelPrefix(m - 1) + WeightRowSum(m - 4, 7)
  {
    KernelRowTotals(m - 4);
  }

  /** The rows of the table add up to 7, 12, 15, 16, 15, 12, 7 from top to bottom. */
  lemma KernelRowTotals(ki: int)
    requires -3 <= ki <= 3
    ensures WeightRowSum(ki, 7) == [7, 12, 15, 16, 15, 12, 7][ki + 3]
  {
    assert WeightRowSum(ki, 3) == Weight(ki, -3) + Weight(ki, -2) + Weight(ki, -1);
    assert WeightRowSum(ki, 5) == WeightRowSum(ki, 3) + Weight(ki, 0) + Weight(ki, 1);
    assert WeightRowSum(ki, 7) == WeightRowSum(ki, 5) + Weight(ki, 2) + Weight(ki, 3);
  }

  /** The table is unchanged by flipping it upside down, flipping it left to right, and transposing it. */
  lemma KernelSymmetric(ki: int, kj: int)
    requires -3 <= ki <= 3 && -3 <= kj <= 3
    ensures Weight(-ki, kj) == Weight(ki, kj)
    ensures Weight(ki, -kj) == Weight(ki, kj)
    ensures Weight(kj, ki) == Weight(ki, kj)
  {
  }

  /** (i, j) is a centre whose whole 7 × 7 window lies inside the width × height image. */
  predicate ValidCentre(image: seq<Pixel>, width: int, height: int, i: int, j: int)
  {
    |image| >= width * height && 3 <= i < height - 3 && 3 <= j < width - 3
  }

  /** The pixel at offset (ki, kj) from centre (i, j): `image[(i + ki) * width + (j + kj)]`. */
  function Sample(image: seq<Pixel>, width: int, height: int, i: int, j: int, ki: int, kj: int): Pixel
    requires ValidCentre(image, width, height, i, j) && -3 <= ki <= 3 && -3 <= kj <= 3
  {
    image[Idx(i + ki, j + kj, width, height)]
  }

  /** The contribution of offset (ki, kj) to channel ch of the weighted sum at (i, j). */
  function Term(image: seq<Pixel>, width: int, height: int, i: int, j: int, ch: Channel, ki: int, kj: int): nat
    requires ValidCentre(image, width, height, i, j) && -3 <= ki <= 3 && -3 <= kj <= 3
  {
    Get(Sample(image, width, height, i, j, ki, kj), ch) * Weight(ki, kj)
  }

  /** The terms of window row ki for the first n column offsets (-3 .. n - 4), added in loop order. */
  function RowSum(image: seq<Pixel>, width: int, height: int, i: int, j: int, ch: Channel, ki: int, n: nat): nat
    requires ValidCentre(image, width, height, i, j) && -3 <= ki <= 3 && n <= 7
  {
    if n == 0 then 0
    else RowSum(image, width, height, i, j, ch, ki, n - 1) + Term(image, width, height, i, j, ch, ki, n - 4)
  }

  /** The terms of the first m window rows (-3 .. m - 4), added in loop order. */
  function RowsSum(image: seq<Pixel>, width: int, height: int, i: int, j: int, ch: Channel, m: nat): nat
    requires ValidCentre(image, width, height, i, j) && m <= 7
  {
    if m == 0 then 0
    else RowsSum(image, width, height, i, j, ch, m - 1) + RowSum(image, width, height, i, j, ch, m - 4, 7)
  }

  /**
   * Channel ch of the kernel-weighted sum over the 7 × 7 window centred at
   * (i, j). It is at most 84 · 255 = 21420 < 2^24, so the `float`
   * accumulation of the original never loses precision.
   */
  function WindowSum(image: seq<Pixel>, width: int, height: int, i: int, j: int, ch: Channel): (s: nat)
    requires ValidCentre(image, width, height, i, j)
    ensures s <= 21420 < 16777216
  {
    BytesWithin(image, width, height, i, j, ch);
    RowsSumWithin(image, width, height, i, j, ch, 7, 0, 255);
    RowsSum(image, width, height, i, j, ch, 7)
  }

  /** Every channel value is a byte, so every window lies within 0 .. 255. */
  lemma BytesWithin(image: seq<Pixel>, width: int, height: int, i: int, j: int, ch: Channel)
    requires ValidCentre(image, width, height, i, j)
    ensures WindowWithin(image, width, height, i, j, ch, 0, 255)
  {
  }

  /**
   * The normalised value `blur_image` computes for channel ch at (i, j),
   * before the cast to `unsigned char`: the sum divided by 82, truncated
   * toward zero, and never above 261.
   */
  function BlurredChannel(image: seq<Pixel>, width: int, height: int, i: int, j: int, ch: Channel): (v: nat)
    requires ValidCentre(image, width, height, i, j)
    ensures v * Divisor <= WindowSum(image, width, height, i, j, ch) < (v + 1) * Divisor
    ensures v <= 261
  {
    WindowSum(image, width, height, i, j, ch) / Divisor
  }

  /**
   * Every normalised value fits in an `unsigned char`. Where it does not,
   * the cast in `blur_image` is undefined behaviour, so callers must
   * establish this. An image with no channel value above 249 always does.
   */
  predicate NoOverflow(image: seq<Pixel>, width: int, height: int): (ok: bool)
    requires |image| >= width * height
    ensures (forall k, ch :: 0 <= k < width * height ==> Get(image[k], ch) < 250) ==> ok
  {
    NoOverflowBelow250(image, width, height);
    forall i, j, ch :: 3 <= i < height - 3 && 3 <= j < width - 3 ==>
      BlurredChannel(image, width, height, i, j, ch) < 256
  }

  /** The output pixel at centre (i, j): each channel normalised independently. */
  function BlurredPixel(image: seq<Pixel>, width: int, height: int, i: int, j: int): (p: Pixel)
    requires ValidCentre(image, width, height, i, j) && NoOverflow(image, width, height)
    ensures forall ch :: Get(p, ch) == BlurredChannel(image, width, height, i, j, ch)
  {
    Pixel(BlurredChannel(image, width, height, i, j, Red),
          BlurredChannel(image, width, height, i, j, Green),
          BlurredChannel(image, width, height, i, j, Blue))
  }

  /** The whole output of `blur_image`: a (width - 6) × (height - 6) image, one pixel per valid centre. */
  function Blur(image: seq<Pixel>, width: int, height: int): (blurred: seq<Pixel>)
    requires 6 <= width && 6 <= height && |image| >= width * height && NoOverflow(image, width, height)
    ensures |blurred| == (width - 6) * (height - 6)
    ensures forall i, j :: 3 <= i < height - 3 && 3 <= j < width - 3 ==>
      blurred[OutIdx(i, j, width, height)] == BlurredPixel(image, width, height, i, j)
  {
    seq((width - 6) * (height - 6), k requires 0 <= k < (width - 6) * (height - 6) =>
      Decompose(k, width - 6, height - 6);
      BlurredPixel(image, width, height, k / (width - 6) + 3, k % (width - 6) + 3))
  }

  /** An image that holds the blurred pixel of every centre in that centre's slot is the output of `blur_image`. */
  lemma BlurIsDeterminedByCells(image: seq<Pixel>, width: int, height: int, blurred: seq<Pixel>)
    requires 6 <= width && 6 <= height && |image| >= width * height && NoOverflow(image, width, height)
    requires |blurred| == (width - 6) * (height - 6)
    requires forall i, j :: 3 <= i < height - 3 && 3 <= j < width - 3 ==>
      blurred[OutIdx(i, j, width, height)] == BlurredPixel(image, width, height, i, j)
    ensures blurred == Blur(image, width, height)
    ensures forall i, j, ch :: 3 <= i < height - 3 && 3 <= j < width - 3 ==>
      Get(blurred[OutIdx(i, j, width, height)], ch) == WindowSum(image, width, height, i, j, ch) / Divisor
  {
    forall k | 0 <= k < |blurred|
      ensures blurred[k] == Blur(image, width, height)[k]
    {
      Decompose(k, width - 6, height - 6);
      assert k == OutIdx(k / (width - 6) + 3, k % (width - 6) + 3, width, height);
    }
  }

  /** Output slot of centre (i, j): `(i - 3) * (width - 6) + (j - 3)`. */
  function OutIdx(i: int, j: int, width: int, height: int): (k: nat)
    requires 3 <= i < height - 3 && 3 <= j < width - 3
    ensures k < (width - 6) * (height - 6)
    ensures k / (width - 6) == i - 3 && k % (width - 6) == j - 3
  {
    Idx(i - 3, j - 3, width - 6, height - 6)
  }

  /**
   * `blur_image`: allocates the (width - 6) × (height - 6) output and, for
   * every valid centre of the padded width × height image, stores the
   * quotients by 82 of the three channel sums over its 7 × 7 window.
   */
  method BlurImage(width: int, height: int, image: seq<Pixel>) returns (blurred: seq<Pixel>)
    requires 6 <= width && 6 <= height && |image| >= width * height
    requires NoOverflow(image, width, height)
    ensures |blurred| == (width - 6) * (height - 6)
    ensures forall i, j, ch :: 3 <= i < height - 3 && 3 <= j < width - 3 ==>
      Get(blurred[OutIdx(i, j, width, height)], ch) == WindowSum(image, width, height, i, j, ch) / Divisor
    ensures blurred == Blur(image, width, height)
  {
    var out := new Pixel[(width - 6) * (height - 6)](_ => Black);
    BlurInto(out, width, height, image);
    blurred := out[..];
    assert forall k :: 0 <= k < out.Length ==> blurred[k] == out[k];
    BlurIsDeterminedByCells(image, width, height, blurred);
  }

  /** The two outer loops of `blur_image`: visit the centres row by row and fill each one's output slot. */
  method BlurInto(out: array<Pixel>, width: int, height: int, image: seq<Pixel>)
    requires 6 <= width && 6 <= height && |image| >= width * height
    requires NoOverflow(image, width, height)
    requires out.Length == (width - 6) * (height - 6)
    modifies out
    ensures forall i, j :: 3 <= i < height - 3 && 3 <= j < width - 3 ==>
      out[OutIdx(i, j, width, height)] == BlurredPixel(image, width, height, i, j)
  {
    for i := 3 to height - 3
      invariant forall i', j' :: 3 <= i' < i && 3 <= j' < width - 3 ==>
        out[OutIdx(i', j', width, height)] == BlurredPixel(image, width, height, i', j')
    {
      for j := 3 to width - 3
        invariant forall i', j' :: 3 <= i' < height - 3 && 3 <= j' < width - 3 && (i' < i || (i' == i && j' < j)) ==>
          out[OutIdx(i', j', width, height)] == BlurredPixel(image, width, height, i', j')
      {
        var pixel := BlurAt(image, width, height, i, j);
        out[OutIdx(i, j, width, height)] := pixel;
      }
    }
  }

  /** The body of the two outer loops of `blur_image`: the output pixel of one centre. */
  method BlurAt(image: seq<Pixel>, width: int, height: int, i: int, j: int) returns (pixel: Pixel)
    requires ValidCentre(image, width, height, i, j) && NoOverflow(image, width, height)
    ensures pixel == BlurredPixel(image, width, height, i, j)
  {
    var r, g, b := ApplyKernel(image, width, height, i, j);
    assert BlurredChannel(image, width, height, i, j, Red) < 256;
    assert BlurredChannel(image, width, height, i, j, Green) < 256;
    assert BlurredChannel(image, width, height, i, j, Blue) < 256;
    pixel := Pixel(r / Divisor, g / Divisor, b / Divisor);
  }

  /** The accumulation loops of `blur_image` at one centre: the three channel sums over its window. */
  method ApplyKernel(image: seq<Pixel>, width: int, height: int, i: int, j: int) returns (r: nat, g: nat, b: nat)
    requires ValidCentre(image, width, height, i, j)
    ensures r == WindowSum(image, width, height, i, j, Red)
    ensures g == WindowSum(image, width, height, i, j, Green)
    ensures b == WindowSum(image, width, height, i, j, Blue)
  {
    r, g, b := 0, 0, 0;
    for ki := -3 to 4
      invariant r == RowsSum(image, width, height, i, j, Red, ki + 3)
      invariant g == RowsSum(image, width, height, i, j, Green, ki + 3)
      invariant b == RowsSum(image, width, height, i, j, Blue, ki + 3)
    {
      for kj := -3 to 4
        invariant r == RowsSum(image, width, height, i, j, Red, ki + 3) + RowSum(image, width, height, i, j, Red, ki, kj + 3)
        invariant g == RowsSum(image, width, height, i, j, Green, ki + 3) + RowSum(image, width, height, i, j, Green, ki, kj + 3)
        invariant b == RowsSum(image, width, height, i, j, Blue, ki + 3) + RowSum(image, width, height, i, j, Blue, ki, kj + 3)
      {
        var pixel := image[Idx(i + ki, j + kj, width, height)];
        var weight := Kernel[ki + 3][kj + 3];
        assert pixel == Sample(image, width, height, i, j, ki, kj) && weight == Weight(ki, kj);
        assert pixel.r * weight == Term(image, width, height, i, j, Red, ki, kj);
        assert pixel.g * weight == Term(image, width, height, i, j, Green, ki, kj);
        assert pixel.b * weight == Term(image, width, height, i, j, Blue, ki, kj);
        r := r + pixel.r * weight;
        g := g + pixel.g * weight;
        b := b + pixel.b * weight;
      }
    }
  }

  // ----- What the weighted sums amount to -----

  /** Channel ch of every pixel in the window centred at (i, j) lies in lo .. hi. */
  ghost predicate WindowWithin(image: seq<Pixel>, width: int, height: int, i: int, j: int, ch: Channel, lo: int, hi: int)
    requires ValidCentre(image, width, height, i, j)
  {
    forall ki, kj :: -3 <= ki <= 3 && -3 <= kj <= 3 ==> SampleWithin(image, width, height, i, j, ch, ki, kj, lo, hi)
  }

  /** Channel ch of the pixel at offset (ki, kj) lies in lo .. hi. */
  ghost predicate SampleWithin(image: seq<Pixel>, width: int, height: int, i: int, j: int, ch: Channel,
                               ki: int, kj: int, lo: int, hi: int)
    requires ValidCentre(image, width, height, i, j) && -3 <= ki <= 3 && -3 <= kj <= 3
  {
    lo <= Get(Sample(image, width, height, i, j, ki, kj), ch) <= hi
  }

  lemma {:induction false} RowSumWithin(image: seq<Pixel>, width: int, height: int, i: int, j: int, ch: Channel,
                                        ki: int, n: nat, lo: int, hi: int)
    requires ValidCentre(image, width, height, i, j) && -3 <= ki <= 3 && n <= 7
    requires WindowWithin(image, width, height, i, j, ch, lo, hi)
    ensures lo * WeightRowSum(ki, n) <= RowSum(image, width, height, i, j, ch, ki, n) <= hi * WeightRowSum(ki, n)
  {
    if n > 0 {
      RowSumWithin(image, width, height, i, j, ch, ki, n - 1, lo, hi);
      assert SampleWithin(image, width, height, i, j, ch, ki, n - 4, lo, hi);
      var x, w := Get(Sample(image, width, height, i, j, ki, n - 4), ch), Weight(ki, n - 4);
      MulMonotone(lo, x, w);
      MulMonotone(x, hi, w);
      AddBounds(lo, hi, WeightRowSum(ki, n - 1), w, RowSum(image, width, height, i, j, ch, ki, n - 1), x * w,
                RowSum(image, width, height, i, j, ch, ki, n), WeightRowSum(ki, n));
    }
  }

  lemma {:induction false} RowsSumWithin(image: seq<Pixel>, width: int, height: int, i: int, j: int, ch: Channel,
                                         m: nat, lo: int, hi: int)
    requires ValidCentre(image, width, height, i, j) && m <= 7
    requires WindowWithin(image, width, height, i, j, ch, lo, hi)
    ensures lo * KernelPrefix(m) <= RowsSum(image, width, height, i, j, ch, m) <= hi * KernelPrefix(m)
  {
    if m > 0 {
      RowsSumWithin(image, width, height, i, j, ch, m - 1, lo, hi);
      RowSumWithin(image, width, height, i, j, ch, m - 4, 7, lo, hi);
      KernelPrefixStep(m);
      var a, b := KernelPrefix(m - 1), WeightRowSum(m - 4, 7);
      var x, y := RowsSum(image, width, height, i, j, ch, m - 1), RowSum(image, width, height, i, j, ch, m - 4, 7);
      AddBounds(lo, hi, a, b, x, y, RowsSum(image, width, height, i, j, ch, m), KernelPrefix(m));
    }
  }

  /** A window whose channel values lie in lo .. hi has a weighted sum in 84 · lo .. 84 · hi. */
  lemma WindowSumWithin(image: seq<Pixel>, width: int, height: int, i: int, j: int, ch: Channel, lo: int, hi: int)
    requires ValidCentre(image, width, height, i, j)
    requires WindowWithin(image, width, height, i, j, ch, lo, hi)
    ensures 84 * lo <= WindowSum(image, width, height, i, j, ch) <= 84 * hi
  {
    RowsSumWithin(image, width, height, i, j, ch, 7, lo, hi);
  }

  /** Bounds lo · a .. hi · a on x and lo · b .. hi · b on y add up to bounds on their sum s, where a + b == t. */
  lemma AddBounds(lo: int, hi: int, a: int, b: int, x: int, y: int, s: int, t: int)
    requires lo * a <= x <= hi * a && lo * b <= y <= hi * b
    requires s == x + y && t == a + b
    ensures lo * t <= s <= hi * t
  {
    assert lo * (a + b) == lo * a + lo * b;
    assert hi * (a + b) == hi * a + hi * b;
  }

  /**
   * A window of one constant value v does not blur to v: the weights add up
   * to 84 and the sum is divided by 82, giving v + v / 41. Dark values
   * (v < 41) come through unchanged, values from 41 on are brightened, and
   * from 250 on the quotient no longer fits in an `unsigned char`.
   */
  lemma UniformWindow(image: seq<Pixel>, width: int, height: int, i: int, j: int, ch: Channel, v: int)
    requires ValidCentre(image, width, height, i, j) && 0 <= v < 256
    requires WindowWithin(image, width, height, i, j, ch, v, v)
    ensures WindowSum(image, width, height, i, j, ch) == 84 * v
    ensures BlurredChannel(image, width, height, i, j, ch) == v + v / 41
    ensures BlurredChannel(image, width, height, i, j, ch) == v <==> v < 41
    ensures BlurredChannel(image, width, height, i, j, ch) < 256 <==> v < 250
  {
    WindowSumWithin(image, width, height, i, j, ch, v, v);
    assert 84 * v == Divisor * (v + v / 41) + 2 * (v % 41);
  }

  /** An image with no channel value above 249 gives quotients below 256 at every centre. */
  lemma NoOverflowBelow250(image: seq<Pixel>, width: int, height: int)
    requires |image| >= width * height
    ensures (forall k, ch :: 0 <= k < width * height ==> Get(image[k], ch) < 250) ==>
      forall i, j, ch :: 3 <= i < height - 3 && 3 <= j < width - 3 ==> BlurredChannel(image, width, height, i, j, ch) < 256
  {
    if forall k, ch :: 0 <= k < width * height ==> Get(image[k], ch) < 250 {
      forall i, j, ch | 3 <= i < height - 3 && 3 <= j < width - 3
        ensures BlurredChannel(image, width, height, i, j, ch) < 256
      {
        WindowSumWithin(image, width, height, i, j, ch, 0, 249);
      }
    }
  }

  // ----- Locality and symmetry -----

  /** Row ki of the window, term by term. */
  lemma RowSumUnrolled(image: seq<Pixel>, width: int, height: int, i: int, j: int, ch: Channel, ki: int)
    requires ValidCentre(image, width, height, i, j) && -3 <= ki <= 3
    ensures RowSum(image, width, height, i, j, ch, ki, 7)
      == Term(image, width, height, i, j, ch, ki, -3) + Term(image, width, height, i, j, ch, ki, -2)
       + Term(image, width, height, i, j, ch, ki, -1) + Term(image, width, height, i, j, ch, ki, 0)
       + Term(image, width, height, i, j, ch, ki, 1) + Term(image, width, height, i, j, ch, ki, 2)
       + Term(image, width, height, i, j, ch, ki, 3)
  {
    assert RowSum(image, width, height, i, j, ch, ki, 1) == RowSum(image, width, height, i, j, ch, ki, 0) + Term(image, width, height, i, j, ch, ki, -3);
    assert RowSum(image, width, height, i, j, ch, ki, 2) == RowSum(image, width, height, i, j, ch, ki, 1) + Term(image, width, height, i, j, ch, ki, -2);
    assert RowSum(image, width, height, i, j, ch, ki, 3) == RowSum(image, width, height, i, j, ch, ki, 2) + Term(image, width, height, i, j, ch, ki, -1);
    assert RowSum(image, width, height, i, j, ch, ki, 4) == RowSum(image, width, height, i, j, ch, ki, 3) + Term(image, width, height, i, j, ch, ki, 0);
    assert RowSum(image, width, height, i, j, ch, ki, 5) == RowSum(image, width, height, i, j, ch, ki, 4) + Term(image, width, height, i, j, ch, ki, 1);
    assert RowSum(image, width, height, i, j, ch, ki, 6) == RowSum(image, width, height, i, j, ch, ki, 5) + Term(image, width, height, i, j, ch, ki, 2);
    assert RowSum(image, width, height, i, j, ch, ki, 7) == RowSum(image, width, height, i, j, ch, ki, 6) + Term(image, width, height, i, j, ch, ki, 3);
  }

  /** The window sum, row by row. */
  lemma RowsSumUnrolled(image: seq<Pixel>, width: int, height: int, i: int, j: int, ch: Channel)
    requires ValidCentre(image, width, height, i, j)
    ensures WindowSum(image, width, height, i, j, ch)
      == RowSum(image, width, height, i, j, ch, -3, 7) + RowSum(image, width, height, i, j, ch, -2, 7)
       + RowSum(image, width, height, i, j, ch, -1, 7) + RowSum(image, width, height, i, j, ch, 0, 7)
       + RowSum(image, width, height, i, j, ch, 1, 7) + RowSum(image, width, height, i, j, ch, 2, 7)
       + RowSum(image, width, height, i, j, ch, 3, 7)
  {
    assert RowsSum(image, width, height, i, j, ch, 1) == RowsSum(image, width, height, i, j, ch, 0) + RowSum(image, width, height, i, j, ch, -3, 7);
    assert RowsSum(image, width, height, i, j, ch, 2) == RowsSum(image, width, height, i, j, ch, 1) + RowSum(image, width, height, i, j, ch, -2, 7);
    assert RowsSum(image, width, height, i, j, ch, 3) == RowsSum(image, width, height, i, j, ch, 2) + RowSum(image, width, height, i, j, ch, -1, 7);
    assert RowsSum(image, width, height, i, j, ch, 4) == RowsSum(image, width, height, i, j, ch, 3) + RowSum(image, width, height, i, j, ch, 0, 7);
    assert RowsSum(image, width, height, i, j, ch, 5) == RowsSum(image, width, height, i, j, ch, 4) + RowSum(image, width, height, i, j, ch, 1, 7);
    assert RowsSum(image, width, height, i, j, ch, 6) == RowsSum(image, width, height, i, j, ch, 5) + RowSum(image, width, height, i, j, ch, 2, 7);
    assert RowsSum(image, width, height, i, j, ch, 7) == RowsSum(image, width, height, i, j, ch, 6) + RowSum(image, width, height, i, j, ch, 3, 7);
  }

  /** Images a and b show the same 7 × 7 window around (i, j). */
  ghost predicate SameWindow(a: seq<Pixel>, b: seq<Pixel>, width: int, height: int, i: int, j: int)
    requires ValidCentre(a, width, height, i, j) && ValidCentre(b, width, height, i, j)
  {
    forall ki, kj :: -3 <= ki <= 3 && -3 <= kj <= 3 ==>
      Sample(a, width, height, i, j, ki, kj) == Sample(b, width, height, i, j, ki, kj)
  }

  /** The value at a centre depends on nothing but the 7 × 7 window around it. */
  lemma WindowSumLocal(a: seq<Pixel>, b: seq<Pixel>, width: int, height: int, i: int, j: int, ch: Channel)
    requires ValidCentre(a, width, height, i, j) && ValidCentre(b, width, height, i, j)
    requires SameWindow(a, b, width, height, i, j)
    ensures WindowSum(a, width, height, i, j, ch) == WindowSum(b, width, height, i, j, ch)
    ensures BlurredChannel(a, width, height, i, j, ch) == BlurredChannel(b, width, height, i, j, ch)
  {
    forall ki | -3 <= ki <= 3
      ensures RowSum(a, width, height, i, j, ch, ki, 7) == RowSum(b, width, height, i, j, ch, ki, 7)
    {
      RowSumUnrolled(a, width, height, i, j, ch, ki);
      RowSumUnrolled(b, width, height, i, j, ch, ki);
    }
    RowsSumUnrolled(a, width, height, i, j, ch);
    RowsSumUnrolled(b, width, height, i, j, ch);
  }

  /** In the mirrored image, offset (ki, kj) from the mirrored centre shows offset (ki, -kj) from the original one, with the same weight. */
  lemma TermMirror(image: seq<Pixel>, width: int, height: int, i: int, j: int, ch: Channel, ki: int, kj: int)
    requires ValidCentre(image, width, height, i, j) && |image| == width * height
    requires -3 <= ki <= 3 && -3 <= kj <= 3
    ensures ValidCentre(Mirror(image, width, height), width, height, i, width - 1 - j)
    ensures Term(Mirror(image, width, height), width, height, i, width - 1 - j, ch, ki, kj)
         == Term(image, width, height, i, j, ch, ki, -kj)
  {
    assert Sample(Mirror(image, width, height), width, height, i, width - 1 - j, ki, kj)
        == image[Idx(i + ki, j - kj, width, height)];
  }

  /** Mirroring the window reverses each of its rows; the table's rows are palindromes, so the row sums agree. */
  lemma RowSumMirror(image: seq<Pixel>, width: int, height: int, i: int, j: int, ch: Channel, ki: int)
    requires ValidCentre(image, width, height, i, j) && |image| == width * height && -3 <= ki <= 3
    ensures ValidCentre(Mirror(image, width, height), width, height, i, width - 1 - j)
    ensures RowSum(Mirror(image, width, height), width, height, i, width - 1 - j, ch, ki, 7)
         == RowSum(image, width, height, i, j, ch, ki, 7)
  {
    var m, mj := Mirror(image, width, height), width - 1 - j;
    forall kj | -3 <= kj <= 3
      ensures Term(m, width, height, i, mj, ch, ki, kj) == Term(image, width, height, i, j, ch, ki, -kj)
    {
      TermMirror(image, width, height, i, j, ch, ki, kj);
    }
    RowSumUnrolled(m, width, height, i, mj, ch, ki);
    RowSumUnrolled(image, width, height, i, j, ch, ki);
  }

  /** Mirroring the image left to right moves each window sum to the mirrored centre, unchanged. */
  lemma WindowSumMirror(image: seq<Pixel>, width: int, height: int, i: int, j: int, ch: Channel)
    requires ValidCentre(image, width, height, i, j) && |image| == width * height
    ensures ValidCentre(Mirror(image, width, height), width, height, i, width - 1 - j)
    ensures WindowSum(Mirror(image, width, height), width, height, i, width - 1 - j, ch)
         == WindowSum(image, width, height, i, j, ch)
  {
    var m, mj := Mirror(image, width, height), width - 1 - j;
    forall ki | -3 <= ki <= 3
      ensures RowSum(m, width, height, i, mj, ch, ki, 7) == RowSum(image, width, height, i, j, ch, ki, 7)
    {
      RowSumMirror(image, width, height, i, j, ch, ki);
    }
    RowsSumUnrolled(m, width, height, i, mj, ch);
    RowsSumUnrolled(image, width, height, i, j, ch);
  }

  /** Mirroring keeps every centre's quotients, moved to the mirrored centre. */
  lemma BlurredChannelsMirror(image: seq<Pixel>, width: int, height: int)
    requires 0 <= width && 0 <= height && |image| == width * height
    ensures forall i, j, ch :: 3 <= i < height - 3 && 3 <= j < width - 3 ==>
      BlurredChannel(Mirror(image, width, height), width, height, i, j, ch)
        == BlurredChannel(image, width, height, i, width - 1 - j, ch)
  {
    forall i, j, ch | 3 <= i < height - 3 && 3 <= j < width - 3
      ensures BlurredChannel(Mirror(image, width, height), width, height, i, j, ch)
        == BlurredChannel(image, width, height, i, width - 1 - j, ch)
    {
      WindowSumMirror(image, width, height, i, width - 1 - j, ch);
    }
  }

  /** Blurring commutes with mirroring the image left to right. */
  lemma BlurMirror(image: seq<Pixel>, width: int, height: int)
    requires 6 <= width && 6 <= height && |image| == width * height && NoOverflow(image, width, height)
    ensures NoOverflow(Mirror(image, width, height), width, height)
    ensures Blur(Mirror(image, width, height), width, height) == Mirror(Blur(image, width, height), width - 6, height - 6)
  {
    BlurredChannelsMirror(image, width, height);
    var m := Mirror(image, width, height);
    forall i, j, ch | 3 <= i < height - 3 && 3 <= j < width - 3
      ensures BlurredChannel(m, width, height, i, j, ch) < 256
    {
      assert BlurredChannel(image, width, height, i, width - 1 - j, ch) < 256;
    }
    var blurred := Blur(image, width, height);
    var rhs := Mirror(blurred, width - 6, height - 6);
    forall i, j | 3 <= i < height - 3 && 3 <= j < width - 3
      ensures rhs[OutIdx(i, j, width, height)] == BlurredPixel(m, width, height, i, j)
    {
      MirroredOutput(blurred, width, height, i, j);
      SameChannelsSamePixel(BlurredPixel(m, width, height, i, j), BlurredPixel(image, width, height, i, width - 1 - j));
    }
    BlurIsDeterminedByCells(m, width, height, rhs);
  }

  /** Slot (i, j) of a mirrored output holds slot (i, width - 1 - j) of the output. */
  lemma MirroredOutput(blurred: seq<Pixel>, width: int, height: int, i: int, j: int)
    requires 6 <= width && 6 <= height && |blurred| == (width - 6) * (height - 6)
    requires 3 <= i < height - 3 && 3 <= j < width - 3
    ensures Mirror(blurred, width - 6, height - 6)[OutIdx(i, j, width, height)] == blurred[OutIdx(i, width - 1 - j, width, height)]
  {
    assert OutIdx(i, j, width, height) == Idx(i - 3, j - 3, width - 6, height - 6);
  }
}
