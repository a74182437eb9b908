/** Pixels of a raw RGB bitmap: three unsigned 8-bit channels, no alpha. */
module Pixels {

  /** An `unsigned char` channel value. */
  type Byte = x: int | 0 <= x < 256

  /** `struct Pixel { unsigned char r, g, b; }` */
  datatype Pixel = Pixel(r: Byte, g: Byte, b: Byte)

  /** The three channels, which every stage treats independently. */
  datatype Channel = Red | Green | Blue

  /** A value-initialised pixel, as `vector<Pixel>(n)` produces. */
  const Black := Pixel(0, 0, 0)

  /** The value of channel `ch` of `p`. */
  function Get(p: Pixel, ch: Channel): Byte
  {
    match ch
    case Red => p.r
    case Green => p.g
    case Blue => p.b
  }

  /** A pixel is its three channels. */
  lemma SameChannelsSamePixel(p: Pixel, q: Pixel)
    requires forall ch :: Get(p, ch) == Get(q, ch)
    ensures p == q
  {
    assert Get(p, Red) == Get(q, Red) && Get(p, Green) == Get(q, Green) && Get(p, Blue) == Get(q, Blue);
  }
}
