/**
 * Row-major addressing of a width × height grid kept in one flat vector,
 * as every loop of the blur writes `row * width + col`, and the clamp that
 * replicate padding amounts to.
 */
module Grid {

  /** Flat position of cell (row, col): the only cell whose quotient and remainder by `width` are (row, col). */
  function Idx(row: int, col: int, width: int, height: int): (k: nat)
    requires 0 <= row < height && 0 <= col < width
    ensures k < width * height
    ensures k / width == row && k % width == col
  {
    DivModOfIdx(row, col, width);
    IdxBelowSize(row, col, width, height);
    row * width + col
  }

  lemma DivModOfIdx(row: int, col: int, width: int)
    requires 0 <= row && 0 <= col < width
    ensures (row * width + col) / width == row
    ensures (row * width + col) % width == col
  {
    var k := row * width + col;
    var q, m := k / width, k % width;
    assert k == q * width + m;
    assert (q - row) * width == col - m by {
      MulSub(q, row, width);
    }
    if q > row {
      MulMonotone(1, q - row, width);
    } else if q < row {
      MulMonotone(1, row - q, width);
    }
  }

  lemma MulSub(a: int, b: int, c: int)
    ensures (a - b) * c == a * c - b * c
  {
  }

  lemma MulMonotone(a: int, b: int, c: int)
    requires a <= b && 0 <= c
    ensures a * c <= b * c
  {
  }

  lemma IdxBelowSize(row: int, col: int, width: int, height: int)
    requires 0 <= row < height && 0 <= col < width
    ensures 0 <= row * width + col < width * height
  {
    MulMonotone(row, height - 1, width);
  }

  /** Every flat position below `width * height` is the position of exactly one cell. */
  lemma Decompose(k: int, width: int, height: int)
    requires 0 < width && 0 <= k < width * height
    ensures 0 <= k / width < height && 0 <= k % width < width
    ensures Idx(k / width, k % width, width, height) == k
  {
  }

  /** `x` moved into [lo, hi]: the nearest value of that range. */
  function Clamp(x: int, lo: int, hi: int): (y: int)
    requires lo <= hi
    ensures lo <= y <= hi
    ensures lo <= x <= hi ==> y == x
    ensures x < lo ==> y == lo
    ensures hi < x ==> y == hi
  {
    if x < lo then lo else if hi < x then hi else x
  }

  /** The grid flipped left to right: cell (row, col) takes the value of cell (row, width - 1 - col). */
  function Mirror<T>(cells: seq<T>, width: int, height: int): (m: seq<T>)
    requires 0 <= width && 0 <= height && |cells| >= width * height
    ensures |m| == width * height
    ensures forall row, col :: 0 <= row < height && 0 <= col < width ==>
      m[Idx(row, col, width, height)] == cells[Idx(row, width - 1 - col, width, height)]
  {
    seq(width * height, k requires 0 <= k < width * height =>
      Decompose(k, width, height);
      cells[Idx(k / width, width - 1 - k % width, width, height)])
  }

  /** Flipping twice gives back the grid. */
  lemma MirrorTwice<T>(cells: seq<T>, width: int, height: int)
    requires 0 <= width && 0 <= height && |cells| == width * height
    ensures Mirror(Mirror(cells, width, height), width, height) == cells
  {
    var m := Mirror(Mirror(cells, width, height), width, height);
    forall k | 0 <= k < |cells|
      ensures m[k] == cells[k]
    {
      Decompose(k, width, height);
      var row, col := k / width, k % width;
      assert m[Idx(row, col, width, height)] == Mirror(cells, width, height)[Idx(row, width - 1 - col, width, height)];
    }
  }
}
