# Image repair and RGB compositing

This project models the numerical core of `Image_processing.py`, a tool that
downloads three imaging bands of an astronomical object and shows them as an
adjustable false-colour composite. Three stages are modelled:

- **Gap filler** (`remplir_pixels_manquants`), module `GapFiller`. It replaces
  NaN samples with 0 and copies the grid. It then visits every interior cell
  row by row. An interior cell that is exactly 0 gets the mean of its strictly
  positive 8-connected neighbours, read from the sanitised grid (not from the
  copy being filled). The loop is the method `FillMissingPixels` over
  `array2`. It is proved equal to the pointwise specification
  `Repair(NanToNum(...))`.
- **Band normalisation** (the `np.clip` / min-max expressions in
  `afficher_images`), module `BandNormalizer`. A band is clipped to `[0, p]`,
  where `p` is its 99th percentile, then rescaled by
  `(x - min) / (max - min)`. The percentile is a parameter.
- **Composite** (`update_image` and the initial render), module `Composite`.
  Each pixel is the triple `(c0*r, c1*g, c2*b)`, with every component clipped
  to `[0, vmax]`. The initial render clips the unweighted stack to `[0, 1]`.

Module `Grids` holds the shared helpers:

- grid shape
- `Sample` (a finite value or NaN)
- numpy's `clip`
- minimum and maximum

Samples are modelled as mathematical reals.

Two edge cases follow the code exactly:

- **Constant band.** The code has no guard when a clipped band's maximum
  equals its minimum: it divides by zero at `Image_processing.py:186`
  (numpy yields NaN and a warning). The model requires `HasRange`.
- **3x3 grid.** `range(1, rows - 1)` visits the centre cell of a 3x3 grid,
  so only grids with fewer than 3 rows or fewer than 3 columns come back
  unchanged (`SmallGridIsUnchanged`).

`afficher_images` never calls `remplir_pixels_manquants`. The gap filler is
modelled as a function of its own.

## Model

| member | source | states |
|---|---|---|
| Grids.Clip | Image_processing.py:185 | np.clip as min(max(x, lo), hi): the result lies in [lo, hi] when lo <= hi, and a value already in range is returned unchanged |
| Grids.ClipMonotone | Image_processing.py:185 | clipping preserves the order of its arguments |
| Grids.SeqMin | Image_processing.py:186 | data.min(): an element of the list that is no larger than any element |
| Grids.SeqMax | Image_processing.py:186 | data.max(): an element of the list that is no smaller than any element |
| GapFiller.Sanitize | Image_processing.py:39 | nan_to_num on one sample: NaN becomes 0, a finite value is kept |
| GapFiller.NanToNum | Image_processing.py:39 | nan_to_num(nan=0.0) keeps the shape, maps NaN to 0 and keeps every finite sample |
| GapFiller.Positives | Image_processing.py:52 | the comprehension `v > 0` keeps exactly the strictly positive neighbours, and is empty exactly when no neighbour is positive |
| GapFiller.PositivesKeepsMultiplicity | Image_processing.py:52 | the comprehension keeps each positive value exactly as many times as it occurs among the neighbours, and drops every other value |
| GapFiller.OffsetsAreTheWindowOnce | Image_processing.py:46-51 | the eight neighbour offsets are pairwise distinct and are exactly the 3x3 window without its centre |
| GapFiller.Neighbours | Image_processing.py:46-51 | the neighbours list has 8 entries, entry k being the cell at offset k (up, down, left, right, then the diagonals), so each neighbour occurs exactly once and nothing else does |
| GapFiller.Mean | Image_processing.py:54 | np.mean: the mean times the number of values is their sum |
| GapFiller.CellFill | Image_processing.py:45-54 | a non-zero cell is kept; a zero cell becomes strictly positive exactly when some neighbour is strictly positive, and stays 0 otherwise |
| GapFiller.RepairedCell | Image_processing.py:43-54 | a border cell or a non-zero cell keeps its sanitised value |
| GapFiller.Repair | Image_processing.py:41-55 | the repaired grid has the input's shape, leaves every border cell as it was, and leaves every non-zero cell (negative ones included) as it was |
| GapFiller.SumBounds | Image_processing.py:54 | the sum of n values in [lo, hi] lies in [n*lo, n*hi] |
| GapFiller.MeanBounds | Image_processing.py:54 | np.mean of values in [lo, hi] lies in [lo, hi] |
| GapFiller.MeanWithinRange | Image_processing.py:54 | np.mean lies between the list's minimum and maximum |
| GapFiller.FilledGapIsMeanOfPositiveNeighbours | Image_processing.py:45-54 | a zero interior cell with a positive neighbour becomes the mean of its positive neighbours, which is strictly positive and between their minimum and maximum |
| GapFiller.GapWithoutPositiveNeighbourStaysZero | Image_processing.py:52-53 | a zero interior cell with no positive neighbour stays 0 |
| GapFiller.UniformRingFillsGap | Image_processing.py:45-54 | a gap ringed by eight cells of one positive value c is filled with c |
| GapFiller.PositivesOfConstant | Image_processing.py:52 | a list of one positive value keeps every element |
| GapFiller.MeanOfConstant | Image_processing.py:54 | the mean of copies of one value c is c |
| GapFiller.SumOfConstant | Image_processing.py:54 | the sum of n copies of c is n*c |
| GapFiller.SmallGridIsUnchanged | Image_processing.py:39-44 | a grid with fewer than 3 rows or 3 columns comes back equal to its sanitised input |
| GapFiller.GapFreeGridIsFixpoint | Image_processing.py:45 | a grid with no zero cell is returned unchanged |
| GapFiller.RepairTwiceTouchesOnlyRemainingGaps | Image_processing.py:37-55 | once no zero remains after a repair, a second repair is the identity; its first clause, that a second repair keeps the non-zero cells, is a corollary of Repair's own contract |
| GapFiller.RepairIsLocal | Image_processing.py:46-51 | a repaired cell depends only on its own 3x3 window of the sanitised grid |
| GapFiller.FillStep | Image_processing.py:45-54 | one loop step at an interior cell fills that cell from the sanitised grid and changes no other cell |
| GapFiller.FillInOrder | Image_processing.py:43-54 | applying the loop body along a visiting order keeps the shape and leaves every cell the order does not visit unchanged |
| GapFiller.CellFillIsIdempotent | Image_processing.py:45-54 | filling a cell twice gives the same value as filling it once |
| GapFiller.FillInOrderAt | Image_processing.py:43-54 | after filling along a sequence of cells, a cell holds its filled value if the sequence visits it and its old value otherwise |
| GapFiller.AnyOrderGivesRepair | Image_processing.py:43-54 | visiting the interior cells in any order, even with repeats, gives the repaired grid, because neighbours are read from `data` and never from `filled_data` |
| GapFiller.NanToNumArray | Image_processing.py:39 | a new array of the same size with NaN replaced by 0; the input array is not modified |
| GapFiller.CopyGrid | Image_processing.py:40 | a new array with the same cells |
| GapFiller.FillRow | Image_processing.py:44-54 | the inner loop turns row i of the copy into the repaired row and changes no other cell |
| GapFiller.FillMissingPixels | Image_processing.py:37-55 | returns a new array, of the input's size, equal to Repair of the sanitised input; the input array is not modified |
| BandNormalizer.Flatten | Image_processing.py:186 | every cell of the band occurs in the list that min/max range over, and that list is empty exactly when the band has no cells |
| BandNormalizer.FlattenedFromCell | Image_processing.py:186 | every value min/max can return is some cell of the band |
| BandNormalizer.ClipBand | Image_processing.py:185 | np.clip on the whole band: same shape, each cell clipped |
| BandNormalizer.Rescale | Image_processing.py:186 | (x - min) / (max - min) on every cell, same shape |
| BandNormalizer.Normalize | Image_processing.py:183-190 | the result is the error case exactly when the band has no cells (line 185 or 186 raises, and the except at line 188 reports it); otherwise it has the band's shape |
| BandNormalizer.ClippedBandWithinPercentile | Image_processing.py:185 | with p >= 0, every clipped cell lies in [0, p] and cells already in [0, p] are unchanged |
| BandNormalizer.RescaleWithinUnit | Image_processing.py:186 | rescaling by bounds of the cells maps every cell into [0, 1] |
| BandNormalizer.RescaleMonotone | Image_processing.py:186 | rescaling keeps the order of any two cells |
| BandNormalizer.RescaleEnds | Image_processing.py:186 | the minimum goes to 0 and the maximum to 1 |
| BandNormalizer.CellsWithinExtremes | Image_processing.py:186 | every cell lies between the band's min and max |
| BandNormalizer.NormalizedBandWithinUnit | Image_processing.py:185-186 | every normalised value lies in [0, 1], and the order of the clipped cells is kept |
| BandNormalizer.NormalizeIsRescale | Image_processing.py:185-186 | a band with cells is rescaled by the minimum and maximum of its clipped cells, and the minimum is below the maximum |
| BandNormalizer.NormalizedBandInUnitRange | Image_processing.py:185-186 | every normalised value lies in [0, 1] |
| BandNormalizer.NormalizedBandKeepsOrder | Image_processing.py:185-186 | normalisation keeps the order of the clipped cells |
| BandNormalizer.NormalizedBandAttainsZeroAndOne | Image_processing.py:185-186 | the normalised band contains a 0 and a 1 |
| Composite.Stacked | Image_processing.py:202 | np.dstack at one position: a pixel of three components, component k taken from band k |
| Composite.Channel | Image_processing.py:202-203 | one channel, clip(x*g, 0, vmax): within [0, vmax] for vmax >= 0, equal to x*g inside that range, 0 below it and vmax above it |
| Composite.ComposePixel | Image_processing.py:202-203 | one composite pixel: component k is channel k of the weighted stack, and every component lies in [0, vmax] for vmax >= 0 |
| Composite.ClipPixel | Image_processing.py:203 | np.clip on one pixel: each component is clipped |
| Composite.UpdateImage | Image_processing.py:196-203 | the composite has the bands' shape; each pixel is the clipped weighted stack of the three bands; with vmax >= 0 every component lies in [0, vmax] |
| Composite.InitialRender | Image_processing.py:211-212 | the initial image has the bands' shape and every component lies in [0, 1] |
| Composite.InitialRenderIsInitialUpdate | Image_processing.py:211-212 | the initial render equals update_image with the sliders' initial values (gains 1, vmax 1, lines 221-224) |
| Composite.InitialRenderShowsUnitBands | Image_processing.py:211-212 | band values already in [0, 1] are shown as they are |
| Composite.SliderCompositeWithinUnit | Image_processing.py:221-224 | the initial slider values are in range, and for in-range sliders every component of the composite lies in [0, 1] |
| Composite.GainIsLinearBelowCeiling | Image_processing.py:202-203 | below the ceiling, scaling a channel's gain by t scales that component by t |
| Composite.GainIsMonotone | Image_processing.py:202-203 | for a non-negative band value, raising a gain never lowers its component |
| Composite.ChannelMonotoneInGain | Image_processing.py:202-203 | clip(x*g, 0, vmax) does not decrease in g for x >= 0 |
| Composite.ChannelsAreIndependent | Image_processing.py:202-203 | a component depends only on its own gain and vmax |
| Composite.GreyExample | Image_processing.py:202-203 | bands all at 0.5 show (0.5, 0.5, 0.5) at the initial sliders, and (1, 0.5, 0.5) with red gain 2 |

## Left out

- The Tk window, comboboxes, progress bar and message boxes: user interface. A failing band is only represented as the `EmptyBand` result.
- The Simbad and SkyView queries: network calls into foreign libraries.
- Threads and events: concurrency.
- Directory handling, `os.listdir`, and opening files with the platform viewer: filesystem and OS plumbing.
- `fits.getdata` and FITS writing: file-format I/O. The model starts from the band as a grid.
- The matplotlib figure, axes, sliders, `imshow` and `draw_idle`: display. The slider ranges appear only as `InSliderRange`, and the initial values as `Initial`.
- `np.percentile`: its interpolation rule is not modelled. The percentile `p` is a parameter of `Normalize`.
- Floating point: samples are real numbers, so rounding is not modelled.
- Infinities: `np.nan_to_num` maps them to the largest finite floats, and they are outside `Sample`. NaN inside a band reaching the normaliser is not modelled either.
- Normalize: requires `HasRange`, that the clipped band's max exceeds its min. The source divides by zero on a constant band, producing NaN with a warning rather than an error, so that case is excluded rather than modelled.
- UpdateImage: requires the three bands to have the same shape, which `np.dstack` needs. A mismatch raises inside numpy and is not modelled as an error value.
