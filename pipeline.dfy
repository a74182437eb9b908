/**
 * `singlethread_blur` between reading and writing the image: pad the source
 * by three pixels on every side, then blur the padded image, which yields an
 * image of the source's own dimensions.
 */
module Pipeline {
  import opened Pixels
  import opened Grid
  import opened Padding
  import opened Convolution

  /** What the pipeline needs: a non-empty source whose padded copy blurs without an out-of-range cast. */
  predicate Blurrable(width: int, height: int, image: seq<Pixel>)
  {
    ValidSource(width, height, image) && NoOverflow(Pad(width, height, image), width + 6, height + 6)
  }

  /** The image the pipeline produces, by definition: the blur of the padded source. */
  function BlurredImage(width: int, height: int, image: seq<Pixel>): (out: seq<Pixel>)
    requires Blurrable(width, height, image)
    ensures |out| == width * height
  {
    Blur(Pad(width, height, image), width + 6, height + 6)
  }

  /**
   * `singlethread_blur`, lines 151 and 157: `add_padding` followed by
   * `blur_image` on the (width + 6) × (height + 6) result. The output has
   * exactly width × height pixels, the count `write_image` then writes.
   */
  method SingleThreadBlur(width: int, height: int, image: seq<Pixel>) returns (blurred: seq<Pixel>)
    requires Blurrable(width, height, image)
    ensures |blurred| == width * height
    ensures blurred == BlurredImage(width, height, image)
  {
    var padded := AddPadding(width, height, image);
    blurred := BlurImage(width + 6, height + 6, padded);
  }

  /**
   * Offset (ki, kj) of the window behind output pixel (row, col) shows the
   * source pixel nearest to (row + ki, col + kj): the border rows and
   * columns stand in for pixels beyond the edge.
   */
  lemma PaddedWindow(width: int, height: int, image: seq<Pixel>, row: int, col: int, ki: int, kj: int)
    requires ValidSource(width, height, image)
    requires 0 <= row < height && 0 <= col < width && -3 <= ki <= 3 && -3 <= kj <= 3
    ensures ValidCentre(Pad(width, height, image), width + 6, height + 6, row + 3, col + 3)
    ensures Sample(Pad(width, height, image), width + 6, height + 6, row + 3, col + 3, ki, kj)
         == image[Idx(Clamp(row + ki, 0, height - 1), Clamp(col + kj, 0, width - 1), width, height)]
  {
    assert Sample(Pad(width, height, image), width + 6, height + 6, row + 3, col + 3, ki, kj)
        == Pad(width, height, image)[PaddedIdx(row + 3 + ki, col + 3 + kj, width, height)];
  }

  /** Output pixel (row, col) holds, channel by channel, the quotient by 82 of the weighted sum over the padded window. */
  lemma OutputPixel(width: int, height: int, image: seq<Pixel>, row: int, col: int, ch: Channel)
    requires Blurrable(width, height, image) && 0 <= row < height && 0 <= col < width
    ensures ValidCentre(Pad(width, height, image), width + 6, height + 6, row + 3, col + 3)
    ensures Get(BlurredImage(width, height, image)[Idx(row, col, width, height)], ch)
         == WindowSum(Pad(width, height, image), width + 6, height + 6, row + 3, col + 3, ch) / Divisor
  {
    assert Idx(row, col, width, height) == OutIdx(row + 3, col + 3, width + 6, height + 6);
  }

  /** Blurring a mirrored source gives the mirrored output. */
  lemma BlurredImageMirror(width: int, height: int, image: seq<Pixel>)
    requires Blurrable(width, height, image) && |image| == width * height
    ensures Blurrable(width, height, Mirror(image, width, height))
    ensures BlurredImage(width, height, Mirror(image, width, height)) == Mirror(BlurredImage(width, height, image), width, height)
  {
    var w, h := width + 6, height + 6;
    var padded, mirrored := Pad(width, height, image), Mirror(image, width, height);
    PadMirror(width, height, image);
    BlurMirror(padded, w, h);
    assert Pad(width, height, mirrored) == Mirror(padded, w, h);
    assert NoOverflow(Pad(width, height, mirrored), w, h);
  }

  /** A source is blurrable exactly when its mirror image is. */
  lemma MirrorBlurrable(width: int, height: int, image: seq<Pixel>)
    requires ValidSource(width, height, image) && |image| == width * height
    ensures Blurrable(width, height, Mirror(image, width, height)) <==> Blurrable(width, height, image)
  {
    var mirrored := Mirror(image, width, height);
    if Blurrable(width, height, image) {
      BlurredImageMirror(width, height, image);
    }
    if Blurrable(width, height, mirrored) {
      BlurredImageMirror(width, height, mirrored);
      MirrorTwice(image, width, height);
    }
  }

  /** A source that reads the same left to right and right to left blurs to an output that does too. */
  lemma SymmetricStaysSymmetric(width: int, height: int, image: seq<Pixel>)
    requires Blurrable(width, height, image) && |image| == width * height
    requires Mirror(image, width, height) == image
    ensures Mirror(BlurredImage(width, height, image), width, height) == BlurredImage(width, height, image)
  {
    BlurredImageMirror(width, height, image);
  }

  /** A width × height image of one colour. */
  function Solid(width: nat, height: nat, p: Pixel): (image: seq<Pixel>)
    ensures |image| == width * height && forall k :: 0 <= k < |image| ==> image[k] == p
  {
    seq(width * height, _ => p)
  }

  /** Every window of the padded solid image is uniform, of the colour's value in each channel. */
  lemma SolidWindows(width: nat, height: nat, p: Pixel, i: int, j: int, ch: Channel)
    requires 1 <= width && 1 <= height && 3 <= i < height + 3 && 3 <= j < width + 3
    ensures ValidCentre(Pad(width, height, Solid(width, height, p)), width + 6, height + 6, i, j)
    ensures BlurredChannel(Pad(width, height, Solid(width, height, p)), width + 6, height + 6, i, j, ch)
         == Get(p, ch) + Get(p, ch) / 41
  {
    var padded, w, h, v := Pad(width, height, Solid(width, height, p)), width + 6, height + 6, Get(p, ch);
    forall ki, kj | -3 <= ki <= 3 && -3 <= kj <= 3
      ensures SampleWithin(padded, w, h, i, j, ch, ki, kj, v, v)
    {
      PaddedWindow(width, height, Solid(width, height, p), i - 3, j - 3, ki, kj);
    }
    UniformWindow(padded, w, h, i, j, ch, v);
  }

  /** A solid image blurs without overflow exactly when each of its channels is below 250; a solid red one does not. */
  lemma SolidOverflow(width: nat, height: nat, p: Pixel)
    requires 1 <= width && 1 <= height
    ensures Blurrable(width, height, Solid(width, height, p)) <==> p.r < 250 && p.g < 250 && p.b < 250
  {
    var padded, w, h := Pad(width, height, Solid(width, height, p)), width + 6, height + 6;
    assert Get(p, Red) == p.r && Get(p, Green) == p.g && Get(p, Blue) == p.b;
    if p.r < 250 && p.g < 250 && p.b < 250 {
      forall i, j, ch | 3 <= i < h - 3 && 3 <= j < w - 3
        ensures BlurredChannel(padded, w, h, i, j, ch) < 256
      {
        SolidWindows(width, height, p, i, j, ch);
      }
    } else {
      SolidWindows(width, height, p, 3, 3, Red);
      SolidWindows(width, height, p, 3, 3, Green);
      SolidWindows(width, height, p, 3, 3, Blue);
    }
  }

  /**
   * A solid image does not come back unchanged: each channel value v
   * becomes v + v / 41, so the image survives only when every channel is
   * below 41.
   */
  lemma SolidImage(width: nat, height: nat, p: Pixel)
    requires 1 <= width && 1 <= height && Blurrable(width, height, Solid(width, height, p))
    ensures forall k, ch :: 0 <= k < width * height ==>
      Get(BlurredImage(width, height, Solid(width, height, p))[k], ch) == Get(p, ch) + Get(p, ch) / 41
    ensures BlurredImage(width, height, Solid(width, height, p)) == Solid(width, height, p)
      <==> p.r < 41 && p.g < 41 && p.b < 41
  {
    var image := Solid(width, height, p);
    var out := BlurredImage(width, height, image);
    forall k, ch | 0 <= k < width * height
      ensures Get(out[k], ch) == Get(p, ch) + Get(p, ch) / 41
    {
      Decompose(k, width, height);
      SolidOutputPixel(width, height, p, k / width, k % width, ch);
    }
    assert Get(p, Red) == p.r && Get(p, Green) == p.g && Get(p, Blue) == p.b;
    if p.r < 41 && p.g < 41 && p.b < 41 {
      forall k | 0 <= k < width * height
        ensures out[k] == image[k]
      {
        SameChannelsSamePixel(out[k], p);
      }
    } else {
      assert Get(out[0], Red) != p.r || Get(out[0], Green) != p.g || Get(out[0], Blue) != p.b;
    }
  }

  lemma SolidOutputPixel(width: nat, height: nat, p: Pixel, row: int, col: int, ch: Channel)
    requires 1 <= width && 1 <= height && Blurrable(width, height, Solid(width, height, p))
    requires 0 <= row < height && 0 <= col < width
    ensures Get(BlurredImage(width, height, Solid(width, height, p))[Idx(row, col, width, height)], ch)
         == Get(p, ch) + Get(p, ch) / 41
  {
    OutputPixel(width, height, Solid(width, height, p), row, col, ch);
    SolidWindows(width, height, p, row + 3, col + 3, ch);
  }

  /**
   * A solid red image, which a filter whose weights were normalised to sum
   * to one would leave unchanged, overflows the cast instead.
   */
  lemma SolidRedOverflows(width: nat, height: nat)
    requires 1 <= width && 1 <= height
    ensures !Blurrable(width, height, Solid(width, height, Pixel(255, 0, 0)))
  {
    SolidOverflow(width, height, Pixel(255, 0, 0));
  }
}
