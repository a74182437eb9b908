# Single-threaded blur of apple-gpu-computing, in Dafny

The program reads a PPM image and gives it a replicate border three pixels
wide (`add_padding`). It then runs a fixed 7 × 7 weighted-sum filter over
every position whose whole window lies inside the padded image
(`blur_image`). The result has the source's own dimensions
(`singlethread_blur`). Every image is a flat, row-major vector of RGB pixels
with one unsigned byte per channel.

The model follows the source's structure:

- `pixels.dfy` (module `Pixels`): the `Pixel` struct, with channels as the
  `Byte` subset type, and the three channels as a datatype.
- `grid.dfy` (module `Grid`):
  - row-major addressing `row * width + col` (`Idx`), proved in range and
    invertible by `/` and `%`;
  - `Clamp`;
  - a left-to-right flip of a grid (`Mirror`), used to state the symmetry
    of the filter.
- `padding.dfy` (module `Padding`):
  - `add_padding` as a method that fills an array in the source's three
    passes, each pass with its loop invariants;
  - checked against the reference definition `Pad`: padded cell (r, c) is
    source cell (clamp(r - 3), clamp(c - 3)).
- `convolution.dfy` (module `Convolution`):
  - `blur_image` as a method with the source's four nested loops and its
    three channel accumulators;
  - checked against `WindowSum`, the kernel-weighted sum of a window, and
    `Blur`, the whole output;
  - lemmas about the kernel table and about the filter (bounds, constant
    windows, locality, mirror symmetry).
- `pipeline.dfy` (module `Pipeline`): the pad-then-blur composition of
  `singlethread_blur`, and what it does to whole images.

### Arithmetic

The source accumulates in `float`. The model uses unbounded integers.

- Every weighted sum is an integer of at most 84 · 255 = 21420 < 2^24, so
  `float` accumulation is exact. The contract of `Convolution.WindowSum`
  states the bound.
- The quotient by 82.0 is then at least 1/82 away from the next integer
  unless it is exact. So truncation by `static_cast<unsigned char>` is
  integer division whenever the result fits in a byte.
- Where it does not fit, the cast is undefined behaviour. The model excludes
  that case with the precondition `NoOverflow`. It does not invent a result.

### The divisor is not the weight sum

`blur_image` divides every sum by `kernel_sum = 82.0` under the comment
"Normalize the kernel" (main.cpp:103-104). A normalising divisor is the sum
of the weights, and a normalised filter leaves a constant image unchanged.
This one does not:

- The weights in the table add up to 84, not 82
  (`Convolution.KernelWeightsSumTo84`).
- A window of constant value v becomes v + v / 41. Only values below 41
  survive unchanged (`Convolution.UniformWindow`, `Pipeline.SolidImage`).
- From v = 250 up, the quotient exceeds 255. A solid red image
  (255, 0, 0) therefore overflows the cast instead of staying red
  (`Pipeline.SolidOverflow`, `Pipeline.SolidRedOverflows`).

## Model

| member | source | states |
|---|---|---|
| Pixels.SameChannelsSamePixel | apple-gpu-computing/main.cpp:23-25 | a pixel is nothing but its three byte channels r, g and b: two pixels with equal channels are equal |
| Grid.Idx | apple-gpu-computing/main.cpp:66 | the row-major index `row * width + col` of an in-range cell lies below width · height, and `/` and `%` by the width give back the row and column, so distinct cells have distinct slots |
| Grid.Decompose | apple-gpu-computing/main.cpp:64-68 | every slot below width · height is the row-major index of exactly the cell (k / width, k % width) |
| Grid.Clamp | apple-gpu-computing/main.cpp:70-84 | the nearest value in lo .. hi: unchanged inside the range, lo below it, hi above it |
| Padding.PaddedIdx | apple-gpu-computing/main.cpp:66 | the padded index `row * (width + 6) + col` is in range and recovers row and column |
| Padding.Pad | apple-gpu-computing/main.cpp:60-87 | the padded image has (width + 6) · (height + 6) pixels, and cell (r, c) is source cell (clamp(r - 3, 0, height - 1), clamp(c - 3, 0, width - 1)) |
| Padding.ReplicatePaddingIsPad | apple-gpu-computing/main.cpp:63-84 | an image of the padded size satisfies the three passes' results (interior copied, rows 0 and height - 1 repeated above and below, columns 3 and width + 2 repeated left and right) if and only if it is the nearest-pixel padding |
| Padding.PadCorners | apple-gpu-computing/main.cpp:78-84 | the four 3 × 3 corners of the padded image hold the source's four corner pixels, which the third pass copies from cells the second pass wrote |
| Padding.AddPadding | apple-gpu-computing/main.cpp:60-87 | `add_padding` returns exactly the nearest-pixel padding of a non-empty source, and its result satisfies each pass's description |
| Padding.CopyInterior | apple-gpu-computing/main.cpp:63-68 | after the first pass, padded cell (i + 3, j + 3) holds source cell (i, j) for every source cell, and every border cell keeps its value |
| Padding.ReplicateRows | apple-gpu-computing/main.cpp:70-76 | after the second pass, the three rows above and below the interior hold source rows 0 and height - 1 over the interior columns, the interior is intact, and the three columns on either side keep their value |
| Padding.ReplicateColumns | apple-gpu-computing/main.cpp:78-84 | after the third pass, every padded cell holds its nearest-pixel value |
| Padding.PadMirror | apple-gpu-computing/main.cpp:60-87 | padding a left-to-right mirrored source gives the mirrored padded image |
| Convolution.Weight | apple-gpu-computing/main.cpp:93-101 | entry [ki + 3][kj + 3] of the kernel table is 4 minus the offset's Chebyshev distance from the centre |
| Convolution.KernelRowTotals | apple-gpu-computing/main.cpp:93-101 | the rows of the kernel table add up to 7, 12, 15, 16, 15, 12 and 7 |
| Convolution.KernelPrefixIsWeightSum | apple-gpu-computing/main.cpp:93-101 | the first m rows of the table add up to the running totals 0, 7, 19, 34, 50, 65, 77, 84 |
| Convolution.KernelWeightsSumTo84 | apple-gpu-computing/main.cpp:93-104 | the weights add up to 84, which differs from the divisor `kernel_sum` = 82 |
| Convolution.KernelSymmetric | apple-gpu-computing/main.cpp:93-101 | the table is unchanged by an upside-down flip, a left-to-right flip and a transpose |
| Convolution.WindowSum | apple-gpu-computing/main.cpp:108-120 | the weighted sum of a window of byte values is at most 84 · 255 = 21420 < 2^24, so the `float` accumulation is exact |
| Convolution.BlurredChannel | apple-gpu-computing/main.cpp:123-125 | the quotient by 82 truncates toward zero (v · 82 ≤ sum < (v + 1) · 82) and is never above 261 |
| Convolution.NoOverflow | apple-gpu-computing/main.cpp:128 | the condition under which every cast to `unsigned char` is defined holds of every image whose channels are all below 250 |
| Convolution.BlurredPixel | apple-gpu-computing/main.cpp:122-128 | each channel of the output pixel is that channel's weighted window sum divided by 82, each channel computed on its own |
| Convolution.Blur | apple-gpu-computing/main.cpp:89-133 | the output has (width - 6) · (height - 6) pixels, and slot (i - 3) · (width - 6) + (j - 3) holds the blurred pixel of centre (i, j) for every centre whose window fits |
| Convolution.OutIdx | apple-gpu-computing/main.cpp:128 | the output slot of centre (i, j) is in range and recovers i - 3 and j - 3, so no two centres share a slot |
| Convolution.BlurIsDeterminedByCells | apple-gpu-computing/main.cpp:106-130 | an image of the output size that holds every centre's blurred pixel in that centre's slot is the whole output: no other slot exists, and each channel is the window sum divided by 82 |
| Convolution.BlurImage | apple-gpu-computing/main.cpp:89-133 | `blur_image` returns (width - 6) · (height - 6) pixels, each channel the integer quotient by 82 of the weighted window sum, and equals `Blur` |
| Convolution.BlurInto | apple-gpu-computing/main.cpp:106-130 | the two outer loops write every centre's blurred pixel into its output slot |
| Convolution.BlurAt | apple-gpu-computing/main.cpp:108-128 | the pixel stored for one centre is the three channel sums divided by 82 |
| Convolution.ApplyKernel | apple-gpu-computing/main.cpp:108-120 | the two inner loops leave r, g and b equal to the weighted window sums of the three channels |
| Convolution.WindowSumWithin | apple-gpu-computing/main.cpp:111-120 | a window whose channel values lie in lo .. hi has a weighted sum in 84 · lo .. 84 · hi |
| Convolution.UniformWindow | apple-gpu-computing/main.cpp:93-125 | a window of constant value v sums to 84 · v, and its quotient is v + v / 41, which equals v exactly when v < 41 and fits in a byte exactly when v < 250 |
| Convolution.NoOverflowBelow250 | apple-gpu-computing/main.cpp:122-128 | in an image with every channel below 250, every centre's quotient is below 256 |
| Convolution.WindowSumLocal | apple-gpu-computing/main.cpp:111-119 | two images with the same 7 × 7 window around a centre have the same sums and quotients there: the output depends on nothing outside the window |
| Convolution.RowSumUnrolled | apple-gpu-computing/main.cpp:112-119 | one row of the window adds the seven terms at offsets -3 .. 3 |
| Convolution.RowsSumUnrolled | apple-gpu-computing/main.cpp:111-120 | the window sum adds the seven row sums at offsets -3 .. 3 |
| Convolution.TermMirror | apple-gpu-computing/main.cpp:113-118 | in a mirrored image, offset (ki, kj) from the mirrored centre shows offset (ki, -kj) from the original centre, with the same weight |
| Convolution.RowSumMirror | apple-gpu-computing/main.cpp:112-119 | each window row of the mirrored image at the mirrored centre has the same sum as the original row |
| Convolution.WindowSumMirror | apple-gpu-computing/main.cpp:111-120 | mirroring the image moves each window sum to the mirrored centre, unchanged |
| Convolution.BlurredChannelsMirror | apple-gpu-computing/main.cpp:106-125 | every quotient of the mirrored image equals the original image's quotient at the mirrored centre |
| Convolution.BlurMirror | apple-gpu-computing/main.cpp:89-133 | `blur_image` of a mirrored image is the mirrored output, and the mirrored image overflows nowhere if the original does not |
| Pipeline.BlurredImage | apple-gpu-computing/main.cpp:151-157 | padding then blurring yields exactly width · height pixels, the source's dimensions |
| Pipeline.SingleThreadBlur | apple-gpu-computing/main.cpp:151-157 | `add_padding` followed by `blur_image` on the (width + 6) × (height + 6) result returns width · height pixels, the blur of the nearest-pixel padding |
| Pipeline.PaddedWindow | apple-gpu-computing/main.cpp:151-157 | offset (ki, kj) of the window behind output pixel (row, col) shows source cell (clamp(row + ki), clamp(col + kj)) |
| Pipeline.OutputPixel | apple-gpu-computing/main.cpp:151-157 | output pixel (row, col) holds, per channel, the weighted sum over the padded window centred at (row + 3, col + 3) divided by 82 |
| Pipeline.BlurredImageMirror | apple-gpu-computing/main.cpp:151-157 | the pipeline commutes with mirroring the source left to right, and a mirrored blurrable source is blurrable |
| Pipeline.MirrorBlurrable | apple-gpu-computing/main.cpp:151-157 | a source blurs without overflow exactly when its left-to-right mirror image does |
| Pipeline.SymmetricStaysSymmetric | apple-gpu-computing/main.cpp:151-157 | a source that reads the same left to right and right to left gives an output that does too, so columns equidistant from the middle get equal values |
| Pipeline.SolidWindows | apple-gpu-computing/main.cpp:93-128 | every centre of a padded solid image has quotient v + v / 41 in a channel of value v |
| Pipeline.SolidOverflow | apple-gpu-computing/main.cpp:122-128 | a solid image blurs without overflow exactly when each of its channels is below 250 |
| Pipeline.SolidOutputPixel | apple-gpu-computing/main.cpp:151-157 | each output pixel of a solid image holds v + v / 41 in a channel of value v |
| Pipeline.SolidImage | apple-gpu-computing/main.cpp:151-157 | a solid image blurs to v + v / 41 in every channel and pixel, and comes back unchanged exactly when every channel is below 41 |
| Pipeline.SolidRedOverflows | apple-gpu-computing/main.cpp:122-128 | a solid red image (255, 0, 0) of any size makes the cast overflow |

## Left out

- `multithread_blur` (main.cpp:168-255) is not modelled. It drives a Metal
  device through foreign API calls, and its `gaussian_blur` GPU kernel
  source is not part of this model.
- `read_image` and `write_image` (main.cpp:31-57, 135-140) are file I/O. The
  model takes the width, height and pixel sequence as parameters and returns
  the blurred sequence. That `read_image` only prints an error for a
  non-"P6" header is not modelled.
- Timing, console output, `main` and the `ImageSize` struct, which feeds only
  the GPU path, are not modelled.
- IEEE `float` arithmetic is replaced by exact integer arithmetic. The sums
  stay below 2^24, so the two agree wherever the result fits in a byte.
- Convolution.BlurImage: requires `NoOverflow`. Where a quotient exceeds
  255, the source's `unsigned char` cast is undefined behaviour, so the
  model gives no result for that case.
- Padding.AddPadding: requires width ≥ 1 and height ≥ 1, and at least
  width · height source pixels. The source also accepts a width of 0: it
  then returns 6 · (height + 6) value-initialised pixels. That case is not
  modelled. A height of 0 with a positive width makes the source read
  before the start of the vector.
- Convolution.BlurImage: requires width ≥ 6 and height ≥ 6. Below that the
  source computes no centre, and the vector size (width - 6) · (height - 6)
  decides the rest. When either size is exactly 6 it is 0, and an empty
  vector comes back. When both are below 6 it is positive, and that many
  value-initialised pixels come back. When one is below 6 and the other
  above 6 it is negative, which converts to a huge unsigned size, so the
  allocation fails. None of these cases is modelled.
- 32-bit `int` overflow of `(width + 6) * (height + 6)` and of the index
  arithmetic is not modelled. Integers are unbounded here.
- The vectors the source fills in place are modelled as local arrays.
  - Each pass of `add_padding` and the loop nest of `blur_image` is a
    separate method over that array.
  - The filled array is returned as a sequence.
  - Aliasing does not arise: every vector is passed by value.
- The zero-initialisation of the output vectors is modelled as filling
  with `Black`. Every slot is overwritten before it is returned.
