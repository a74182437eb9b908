/**
 * `add_padding`: replicate padding of radius 3. A width × height image
 * becomes a (width + 6) × (height + 6) image whose border cells copy the
 * nearest edge pixel of the source.
 */
module Padding {
  import opened Pixels
  import opened Grid

  /** What `add_padding` needs of its arguments: a non-empty image holding at least width × height pixels. */
  predicate ValidSource(width: int, height: int, image: seq<Pixel>)
  {
    1 <= width && 1 <= height && |image| >= width * height
  }

  /** Flat position of cell (row, col) of the padded image, `row * (width + 6) + col`. */
  function PaddedIdx(row: int, col: int, width: int, height: int): (k: nat)
    requires 0 <= row < height + 6 && 0 <= col < width + 6
    ensures k < (width + 6) * (height + 6)
    ensures k / (width + 6) == row && k % (width + 6) == col
  {
    Idx(row, col, width + 6, height + 6)
  }

  /** Reference definition: padded cell (row, col) shows the source pixel nearest to (row - 3, col - 3). */
  function PaddedAt(width: int, height: int, image: seq<Pixel>, row: int, col: int): Pixel
    requires ValidSource(width, height, image)
  {
    image[Idx(Clamp(row - 3, 0, height - 1), Clamp(col - 3, 0, width - 1), width, height)]
  }

  /** The whole padded image, row-major, as the reference definition gives it cell by cell. */
  function Pad(width: int, height: int, image: seq<Pixel>): (padded: seq<Pixel>)
    requires ValidSource(width, height, image)
    ensures |padded| == (width + 6) * (height + 6)
    ensures forall row, col :: 0 <= row < height + 6 && 0 <= col < width + 6 ==>
      padded[PaddedIdx(row, col, width, height)] == PaddedAt(width, height, image, row, col)
  {
    seq((width + 6) * (height + 6), k => PaddedAt(width, height, image, k / (width + 6), k % (width + 6)))
  }

  /** First pass: the source sits in the interior, offset by three rows and three columns. */
  ghost predicate InteriorCopied(width: int, height: int, image: seq<Pixel>, padded: seq<Pixel>)
    requires ValidSource(width, height, image) && |padded| == (width + 6) * (height + 6)
  {
    forall row, col :: 3 <= row < height + 3 && 3 <= col < width + 3 ==>
      padded[PaddedIdx(row, col, width, height)] == image[Idx(row - 3, col - 3, width, height)]
  }

  /** Second pass: over the interior columns, the three top rows repeat source row 0 and the three bottom rows source row height - 1. */
  ghost predicate RowsReplicated(width: int, height: int, image: seq<Pixel>, padded: seq<Pixel>)
    requires ValidSource(width, height, image) && |padded| == (width + 6) * (height + 6)
  {
    forall row, col :: (0 <= row < 3 || height + 3 <= row < height + 6) && 3 <= col < width + 3 ==>
      padded[PaddedIdx(row, col, width, height)]
        == image[Idx(if row < 3 then 0 else height - 1, col - 3, width, height)]
  }

  /** Third pass: in every padded row, the three left cells repeat column 3 and the three right cells column width + 2. */
  ghost predicate ColumnsReplicated(width: int, height: int, padded: seq<Pixel>)
    requires 1 <= width && 1 <= height && |padded| == (width + 6) * (height + 6)
  {
    forall row, col :: 0 <= row < height + 6 && (0 <= col < 3 || width + 3 <= col < width + 6) ==>
      padded[PaddedIdx(row, col, width, height)]
        == padded[PaddedIdx(row, if col < 3 then 3 else width + 2, width, height)]
  }

  /** The result of the three passes of `add_padding`, described pass by pass. */
  ghost predicate IsReplicatePadding(width: int, height: int, image: seq<Pixel>, padded: seq<Pixel>)
    requires ValidSource(width, height, image)
  {
    |padded| == (width + 6) * (height + 6) &&
    InteriorCopied(width, height, image, padded) &&
    RowsReplicated(width, height, image, padded) &&
    ColumnsReplicated(width, height, padded)
  }

  /** The pass-by-pass description determines the padded image: it is the nearest-pixel one. */
  lemma ReplicatePaddingIsPad(width: int, height: int, image: seq<Pixel>, padded: seq<Pixel>)
    requires ValidSource(width, height, image)
    ensures IsReplicatePadding(width, height, image, padded) <==> padded == Pad(width, height, image)
  {
    var w, h := width + 6, height + 6;
    var p := Pad(width, height, image);
    if IsReplicatePadding(width, height, image, padded) {
      forall k | 0 <= k < w * h
        ensures padded[k] == p[k]
      {
        Decompose(k, w, h);
        var row, col := k / w, k % w;
        var c := Clamp(col, 3, width + 2);
        // the cell of an interior column that this one copies, filled by the first two passes
        assert padded[PaddedIdx(row, c, width, height)] == PaddedAt(width, height, image, row, c);
      }
    } else {
      PadIsReplicatePadding(width, height, image);
    }
  }

  lemma PadIsReplicatePadding(width: int, height: int, image: seq<Pixel>)
    requires ValidSource(width, height, image)
    ensures IsReplicatePadding(width, height, image, Pad(width, height, image))
  {
  }

  /** The four 3 × 3 corners of the padded image repeat the source's corner pixels. */
  lemma PadCorners(width: int, height: int, image: seq<Pixel>, row: int, col: int)
    requires ValidSource(width, height, image)
    requires 0 <= row < 3 || height + 3 <= row < height + 6
    requires 0 <= col < 3 || width + 3 <= col < width + 6
    ensures Pad(width, height, image)[PaddedIdx(row, col, width, height)]
      == image[Idx(if row < 3 then 0 else height - 1, if col < 3 then 0 else width - 1, width, height)]
  {
  }

  /** Padding commutes with mirroring the image left to right. */
  lemma PadMirror(width: int, height: int, image: seq<Pixel>)
    requires ValidSource(width, height, image) && |image| == width * height
    ensures ValidSource(width, height, Mirror(image, width, height))
    ensures Pad(width, height, Mirror(image, width, height)) == Mirror(Pad(width, height, image), width + 6, height + 6)
  {
    var lhs, rhs := Pad(width, height, Mirror(image, width, height)), Mirror(Pad(width, height, image), width + 6, height + 6);
    forall k | 0 <= k < |lhs|
      ensures lhs[k] == rhs[k]
    {
      Decompose(k, width + 6, height + 6);
      var row, col := k / (width + 6), k % (width + 6);
      assert k == PaddedIdx(row, col, width, height);
      assert rhs[k] == Pad(width, height, image)[PaddedIdx(row, width + 5 - col, width, height)];
      assert width - 1 - Clamp(col - 3, 0, width - 1) == Clamp(width + 2 - col, 0, width - 1);
    }
  }

  /** Cells (row, col) with top <= row < bottom and left <= col < right already hold their padded value. */
  ghost predicate Filled(a: array<Pixel>, width: int, height: int, image: seq<Pixel>,
                         top: int, bottom: int, left: int, right: int)
    requires ValidSource(width, height, image) && a.Length == (width + 6) * (height + 6)
    reads a
  {
    forall row, col :: top <= row < bottom && left <= col < right && 0 <= row < height + 6 && 0 <= col < width + 6 ==>
      a[PaddedIdx(row, col, width, height)] == PaddedAt(width, height, image, row, col)
  }

  /**
   * `add_padding`: allocates the (width + 6) × (height + 6) vector and fills
   * it in three passes; the third reads cells the first two wrote, which is
   * how the corners receive the source's corner pixels.
   */
  method AddPadding(width: int, height: int, image: seq<Pixel>) returns (padded: seq<Pixel>)
    requires ValidSource(width, height, image)
    ensures padded == Pad(width, height, image)
    ensures IsReplicatePadding(width, height, image, padded)
  {
    var a := new Pixel[(width + 6) * (height + 6)](_ => Black);
    CopyInterior(a, width, height, image);
    ReplicateRows(a, width, height, image);
    ReplicateColumns(a, width, height, image);
    padded := a[..];
    forall k | 0 <= k < a.Length
      ensures padded[k] == Pad(width, height, image)[k]
    {
      Decompose(k, width + 6, height + 6);
    }
    ReplicatePaddingIsPad(width, height, image, padded);
  }

  /** First pass: copy the source into the interior; the border keeps its value. */
  method CopyInterior(a: array<Pixel>, width: int, height: int, image: seq<Pixel>)
    requires ValidSource(width, height, image) && a.Length == (width + 6) * (height + 6)
    modifies a
    ensures Filled(a, width, height, image, 3, height + 3, 3, width + 3)
    ensures forall row, col :: 0 <= row < height + 6 && 0 <= col < width + 6 && !(3 <= row < height + 3 && 3 <= col < width + 3) ==>
      a[PaddedIdx(row, col, width, height)] == old(a[PaddedIdx(row, col, width, height)])
  {
    for i := 0 to height
      invariant Filled(a, width, height, image, 3, i + 3, 3, width + 3)
      invariant forall row, col :: 0 <= row < height + 6 && 0 <= col < width + 6 && !(3 <= row < height + 3 && 3 <= col < width + 3) ==>
        a[PaddedIdx(row, col, width, height)] == old(a[PaddedIdx(row, col, width, height)])
    {
      for j := 0 to width
        invariant forall row, col :: 0 <= row < height + 6 && 0 <= col < width + 6 && !(3 <= row < height + 3 && 3 <= col < width + 3) ==>
          a[PaddedIdx(row, col, width, height)] == old(a[PaddedIdx(row, col, width, height)])
        invariant forall row, col ::
          3 <= row < height + 3 && 3 <= col < width + 3 && (row < i + 3 || (row == i + 3 && col < j + 3)) ==>
          a[PaddedIdx(row, col, width, height)] == PaddedAt(width, height, image, row, col)
      {
        a[PaddedIdx(i + 3, j + 3, width, height)] := image[Idx(i, j, width, height)];
      }
    }
  }

  /**
   * Second pass: repeat source rows 0 and height - 1 in the three rows above
   * and below the interior; the three columns on either side keep their value.
   */
  method ReplicateRows(a: array<Pixel>, width: int, height: int, image: seq<Pixel>)
    requires ValidSource(width, height, image) && a.Length == (width + 6) * (height + 6)
    requires Filled(a, width, height, image, 3, height + 3, 3, width + 3)
    modifies a
    ensures Filled(a, width, height, image, 0, height + 6, 3, width + 3)
    ensures forall row, col :: 0 <= row < height + 6 && (0 <= col < 3 || width + 3 <= col < width + 6) ==>
      a[PaddedIdx(row, col, width, height)] == old(a[PaddedIdx(row, col, width, height)])
  {
    for i := 0 to 3
      invariant forall row, col ::
        0 <= row < height + 6 && 3 <= col < width + 3 && (row < i || 3 <= row < height + 3 + i) ==>
        a[PaddedIdx(row, col, width, height)] == PaddedAt(width, height, image, row, col)
      invariant forall row, col :: 0 <= row < height + 6 && (0 <= col < 3 || width + 3 <= col < width + 6) ==>
        a[PaddedIdx(row, col, width, height)] == old(a[PaddedIdx(row, col, width, height)])
    {
      for j := 0 to width
        invariant forall row, col :: 0 <= row < height + 6 && (0 <= col < 3 || width + 3 <= col < width + 6) ==>
          a[PaddedIdx(row, col, width, height)] == old(a[PaddedIdx(row, col, width, height)])
        invariant forall row, col ::
          0 <= row < height + 6 && 3 <= col < width + 3 &&
          (row < i || 3 <= row < height + 3 + i || ((row == i || row == height + 3 + i) && col < j + 3))
          ==> a[PaddedIdx(row, col, width, height)] == PaddedAt(width, height, image, row, col)
      {
        a[PaddedIdx(i, j + 3, width, height)] := image[Idx(0, j, width, height)];
        a[PaddedIdx(height + 3 + i, j + 3, width, height)] := image[Idx(height - 1, j, width, height)];
      }
    }
  }

  /** Third pass: in every row, repeat column 3 in the three cells to its left and column width + 2 in the three to its right. */
  method ReplicateColumns(a: array<Pixel>, width: int, height: int, image: seq<Pixel>)
    requires ValidSource(width, height, image) && a.Length == (width + 6) * (height + 6)
    requires Filled(a, width, height, image, 0, height + 6, 3, width + 3)
    modifies a
    ensures Filled(a, width, height, image, 0, height + 6, 0, width + 6)
  {
    for i := 0 to height + 6
      invariant forall row, col ::
        0 <= row < height + 6 && 0 <= col < width + 6 && (3 <= col < width + 3 || row < i) ==>
        a[PaddedIdx(row, col, width, height)] == PaddedAt(width, height, image, row, col)
    {
      for j := 0 to 3
        invariant forall row, col ::
          0 <= row < height + 6 && 0 <= col < width + 6 &&
          (3 <= col < width + 3 || row < i || (row == i && (col < j || width + 3 <= col < width + 3 + j)))
          ==> a[PaddedIdx(row, col, width, height)] == PaddedAt(width, height, image, row, col)
      {
        a[PaddedIdx(i, j, width, height)] := a[PaddedIdx(i, 3, width, height)];
        a[PaddedIdx(i, width + 3 + j, width, height)] := a[PaddedIdx(i, width + 2, width, height)];
      }
    }
  }
}
