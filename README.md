# pulsarpkg core in Dafny

This project models the computational core of **pulsarpkg**. pulsarpkg is a toolkit that does two things:

- it ingests pulsar observations (FITS files) into an SQLite catalogue and queries them;
- it searches scintillation arcs in their secondary spectra.

The model covers five parts, one module group each.

- **The arc finder** (`arcfinder/computing.py`):
  - `Indexed2D`, the coordinate-indexed grid, with its validating setters, the mapping from coordinate bounds to indices, and `__getitem__`. This is module `Indexed`.
  - Row and column mean equalisation `arr_normalize_axis`, done in place on a 2-D array. This is module `Normalize`.
  - The clean-up policies of the dynamic and secondary spectra: 90° rotation, outlier clipping, the mask shapes, the background floor, the crop window and the axis lengths. This is module `Spectrum`.
  - The `Secondary` object: cropping, and the three curvature searches `make_1D_by_quadratic`, `power_along_parabola` and `parabola_width`. This is module `SecondarySpectrum`.
  - The search scaffolding those three searches share: the eta list, the symmetric sample and offset lists, the per-point sigmas, the thread clamp, the worker pool, and result collection through `sort_dict_by_key`. This is module `Search`.
- **The reducers** (`arcfinder/multiprocessing_helper_functions.py`):
  - the three weight functions with their `e^-3` cut-off;
  - the variance-weighted means `crunchy`, `crunchy2` and `crunchy3`.

  This is module `Weights`.
- **The catalogue's SQL builders** (`fitsdb/sqlite.py`): `fix_header`, `check_columns`, the INSERT of `ingest_data`, the WHERE clause of `extract`, and the two DELETEs of `delete`. This is module `FitsDb`.
- **The command line's pure parts** (`pulsarpkg_frontend.py`): `create_attr_dict`, the output-column table `outp`, and the header and rule lines of the result listing. This is module `Frontend`.
- **The plot helpers** (`arcfinder/plotting.py`): the PDF title and author, the default `show_image` extent, the coordinate lists of `overplot_parabolas`, and the module-level `__give_eta_list`. This is module `Plotting`.

Python's building blocks live in `pycore.dfy`:

- `Option` and `Result`, where a raised exception is `Err` with its kind;
- insertion-ordered dictionaries as sequences of pairs (`PyDict`);
- string helpers (`PyStr`);
- sequence and matrix helpers (`Seqs`);
- `Trunc` for `int()` and `PySlice` for Python's clamping slices.

Floats are `real`. The transcendental pieces are not evaluated in Dafny. These are the Gaussian, the closest point on a parabola, `sqrt` and the `e^-3` cut-off. They are fields of the `Weights.Kernel` record and are passed in as parameters. The reducers are proved for every choice of them.

How the source's forms are modelled:

- State that the source changes in place is imperative Dafny:
  - numpy arrays are `array2<real>`;
  - `Indexed2D`, `Secondary`, `DB`, the `outp` table and `Pdf` are classes whose methods modify their fields.
- Every such method is proved equal to a specification function.
- The properties the source promises are proved as lemmas about those functions.

## Model

| member | source | states |
|---|---|---|
| Search.CollectLastWins | arcfinder/computing.py:483-485 | filling a dict from the pool output leaves, for each key, the value of its last occurrence, and nothing for absent keys |
| Search.CollectResults | arcfinder/computing.py:483-485 | the loop that fills `powers` yields distinct keys, each mapped to its last value in the pool output |
| Search.SortedItems | arcfinder/computing.py:6-18 | the dict's items in strictly ascending key order, with the same items and length (a permutation of the dict) |
| Search.SortDictByKey | arcfinder/computing.py:6-18 | keys strictly ascending, `values[i]` is the dict's value for `keys[i]`, both as long as the dict, and exactly the dict's keys |
| Search.ClampThreads | arcfinder/computing.py:473-474 | a thread count of 0 becomes 1; any other count is kept |
| Search.PoolCheck | arcfinder/computing.py:480 | creating the pool fails with ValueError exactly when fewer than one process is asked for |
| Search.PoolAfterClamp | arcfinder/computing.py:473-480 | after the clamp, the pool refuses exactly the negative thread counts |
| Search.LinspaceWithin | arcfinder/computing.py:456 | every linspace point lies between the two end points |
| Search.EtaList | arcfinder/computing.py:451-458 | one eta gives the range's average for any range; otherwise a zero smallest eta raises ZeroDivisionError and a negative count ValueError, and the list has `num_etas` values, all positive, running from 1/sqrt(1/max)^2 to 1/sqrt(1/min)^2 |
| Search.MirrorSymmetric | arcfinder/computing.py:527-529 | the mirrored list is the negated reverse of `temp[1:]` followed by `temp`, of length 2·len(temp)−1 and antisymmetric around its middle |
| Search.ParabolaEven | arcfinder/computing.py:530-531 | the parabola y = eta·x² takes the same value at x and −x |
| Search.Points | arcfinder/computing.py:530-531 | each sample x becomes the point (eta·x², x) |
| Search.ArcletXs | arcfinder/computing.py:527-529 | `num_arclets / 2` linspace points, the count truncated toward zero, mirrored: empty for a half-count of 0 (a count of −1 included), otherwise 2·half−1 points; a count of −2 or below raises ValueError |
| PyCore.HalfCount | arcfinder/computing.py:527 | the count linspace receives is `int(n / 2)`, true division truncated toward zero; it is negative exactly for n ≤ −2 |
| Search.ArcletXsShape | arcfinder/computing.py:527-529 | the arclet x list is antisymmetric and runs from −max_x to max_x |
| Search.OffsetList | arcfinder/computing.py:575-577 | the offset list has 2·half−1 entries, with half `int(num_offsets / 2)`, and is empty for half 0 (a count of −1 included); a count of −2 or below raises ValueError |
| Search.OffsetListShape | arcfinder/computing.py:575-577 | the offsets are antisymmetric off the middle, centred on max_width·sqrt(0), and run out to ±max_width·sqrt(1) |
| Search.MaxX | arcfinder/computing.py:509-512 | the sample half-width is sqrt(max(y)/eta), capped at \|max(x)\|: it is one of the two and never above the cap |
| Search.PointSigmas | arcfinder/computing.py:533-542 | end points take the coordinate distance to their neighbour as sigma; inner points take the pixel spacing times sigma_px; a single point raises IndexError |
| Search.BuildSigmas | arcfinder/computing.py:533-542 | the loop that fills `sigmas` yields exactly the per-point sigmas above |
| Search.Zip | arcfinder/computing.py:544-546 | pairing points with sigmas keeps the order, index by index |
| Search.PairUp | arcfinder/computing.py:544-546 | the pairing loop yields the zipped list |
| Search.PairSigmas | arcfinder/computing.py:509-546 | every arclet point lies on the parabola at its x; a sigma error or a single point is passed on |
| Search.ArcletPointsFail | arcfinder/computing.py:509-546 | building the arclets fails exactly for axes shorter than 2, a zero eta, a count of −2 or below, or a half-count of 1: ValueError for an empty axis or a negative half-count, ZeroDivisionError for a zero eta, IndexError for a one-point axis or a single arclet |
| Search.ArcletPointsShape | arcfinder/computing.py:509-546 | the arclets lie on the parabola, and are mirrored in x and equal in y from both ends |
| Search.PairSigmasShape | arcfinder/computing.py:527-546 | antisymmetric x samples give arclets that are mirrored in x and equal in y |
| Search.BuildArclets | arcfinder/computing.py:509-546 | the method builds exactly the specified arclet list, or raises the specified error (a zero eta among them) |
| Search.PoolMap | arcfinder/computing.py:480-481 | the sequential map succeeds exactly when every call does, with the results in order; otherwise it raises the first error |
| Search.PoolMapFails | arcfinder/computing.py:480-481 | the first failing call decides the pool's error |
| Search.MapCrunchy | arcfinder/computing.py:480-481 | mapping `crunchy` over the etas equals the specified pool map |
| Search.MapCrunchy2 | arcfinder/computing.py:548-549 | mapping `crunchy2` over the points equals the specified pool map |
| Search.MapCrunchy3 | arcfinder/computing.py:581-582 | mapping `crunchy3` over the offsets equals the specified pool map |
| Search.CollectSorted | arcfinder/computing.py:483-491 | collecting and sorting the pool output gives ascending keys, each with the last value for that key |
| Search.SortedCrunchy | arcfinder/computing.py:483-491 | the sorted etas are exactly the requested etas, and each power is what `crunchy` returns for its eta |
| Search.SortedCrunchy3 | arcfinder/computing.py:584-591 | the sorted offsets are exactly the requested offsets, and each power is what `crunchy3` returns for its offset |
| Search.OneDOutcome | arcfinder/computing.py:451-491 | `make_1D_by_quadratic` fails exactly for a zero smallest eta with `num_etas` other than 1 (ZeroDivisionError), a negative eta count or negative threads (ValueError), or a default sigma on an axis shorter than 2 (IndexError); otherwise it yields one result per eta, keyed by that eta |
| Search.ArcletPoolOutcome | arcfinder/computing.py:548-556 | the arclet pool fails only for negative threads, and otherwise keeps each point as its key |
| Search.ArcletOutcome | arcfinder/computing.py:494-556 | `power_along_parabola` fails exactly when the arclets cannot be built (a zero eta gives ZeroDivisionError) or the threads are negative; otherwise there is one power per arclet, keyed by its point |
| Search.Crunchy2CallsOk | arcfinder/computing.py:548-549 | on axes of at least two points, every `crunchy2` call succeeds and returns its point |
| Search.WidthOutcome | arcfinder/computing.py:559-591 | `parabola_width` fails exactly for an offset count of −2 or below or negative threads (ValueError), or for a short axis when offsets exist (IndexError); otherwise there is one power per offset, keyed by it |
| Search.WidthAtCentre | arcfinder/computing.py:559-591 | the central offset 0 carries the same power as `crunchy` gives for that eta |
| Indexed.ShapeError | arcfinder/computing.py:226-231 | the rows pass exactly when every row has a `len()` equal to the first row's; the first row without a `len()` raises TypeError and the first of another length IndexError |
| Indexed.CheckData | arcfinder/computing.py:224-238 | data that is not a list raises TypeError; ragged data raises IndexError; accepted data is rectangular and holds the rows' cells |
| Indexed.CheckAxes | arcfinder/computing.py:253-266 | axes are accepted exactly as a tuple of two lists, giving (y_axis, x_axis); a short tuple raises IndexError and anything else TypeError |
| Indexed.BuildChecks | arcfinder/computing.py:223-283 | construction raises TypeError or IndexError for bad data or axes, and IndexError for axis lengths that differ from the shape; on success the state holds the data and `(y_axis, x_axis)` with both flags set |
| Indexed.BuildComplete | arcfinder/computing.py:157-170 | a successfully built grid is complete: rectangular, with axes matching its shape |
| Indexed.Nearest | arcfinder/computing.py:184-185 | the chosen index is the first one minimising \|axis[i] − bound\| |
| Indexed.BoundIndex | arcfinder/computing.py:181-192 | a bound below min(axis) or above max(axis) raises IndexError; otherwise it maps to the nearest index |
| Indexed.AxisIndex | arcfinder/computing.py:179-221 | a slice key gives a range, `[:]` gives the whole axis, and a point key gives a valid position |
| Indexed.FirstMinIndexShift | arcfinder/computing.py:196-199 | shifting every axis value by the same constant does not move the first minimum |
| Indexed.PointIgnoresCoordinate | arcfinder/computing.py:196-199 | a scalar lookup returns the first index of the smallest axis value, whatever coordinate is asked for |
| Indexed.GetItemComplete | arcfinder/computing.py:172-177 | any sub-grid `__getitem__` returns is complete |
| Indexed.FullSliceIsIdentity | arcfinder/computing.py:172-195 | `grid[:, :]` reproduces the grid |
| Indexed.EmptyRowSelectionFails | arcfinder/computing.py:172-177 | a slice that selects no rows cannot be rebuilt into a grid: `set_axes` reads the missing first row and raises IndexError |
| Indexed.Indexed2D.SetData | arcfinder/computing.py:223-250 | on error the object is unchanged and the error is reported; on success it holds the checked data |
| Indexed.Indexed2D.SetAxes | arcfinder/computing.py:252-283 | on error the object is unchanged; on success it holds the checked axes |
| Indexed.Indexed2D.GetItem | arcfinder/computing.py:172-177 | the method fails exactly when the specification does, and otherwise returns a fresh grid in the specified state |
| Indexed.Create | arcfinder/computing.py:157-170 | the constructor followed by both setters fails exactly as the build specification does, and otherwise yields its state |
| Normalize.Product | arcfinder/computing.py:49 | `mask * row` broadcasts: as long as the longer side, with a side of length 1 repeated along the other |
| Normalize.TotalDefined | arcfinder/computing.py:47-49 | the running sum `mean += np.mean(mask * row)` is a number exactly when every row mean is; one NaN mean makes it NaN |
| Normalize.RowMeans | arcfinder/computing.py:48-49 | entry i is the masked mean of row i (NaN for an empty product) |
| Normalize.LevelDefined | arcfinder/computing.py:47-50 | the level `mean / len(arr)` is a number exactly when every masked row mean is |
| Normalize.Rescaled | arcfinder/computing.py:51-53 | row i is scaled by level / its own masked mean when that factor is finite; a row whose factor numpy makes inf or NaN keeps its old cells as a placeholder; the shape is kept |
| Normalize.NormRows | arcfinder/computing.py:47-54 | the 'y' result keeps the array's shape |
| Normalize.NormCols | arcfinder/computing.py:55-56 | the 'x' result keeps the array's shape |
| Normalize.MaskOrOnes | arcfinder/computing.py:41-42 | a missing mask becomes a mask of ones as long as a row |
| Normalize.ProductScale | arcfinder/computing.py:49-53 | scaling a row scales its product with the mask by the same factor, broadcast or not |
| Normalize.SumScale | arcfinder/computing.py:49 | the sum of a scaled array is the factor times the sum |
| Normalize.RescaledMean | arcfinder/computing.py:52-53 | rescaling a mean by level/mean gives the level |
| Normalize.MeanRescaled | arcfinder/computing.py:52-53 | an array with a non-zero mean, scaled by level over that mean, has the level as its mean |
| Normalize.RowEqualized | arcfinder/computing.py:51-53 | after its rescale, a row with a non-zero masked mean has the target level as its masked mean |
| Normalize.LostExactly | arcfinder/computing.py:47-53 | no row is lost exactly when the rows are empty or every masked row mean is a non-zero number; a non-empty row with mean 0 is lost; one NaN row mean loses every non-empty row |
| Normalize.ZeroMeanLost | arcfinder/computing.py:51-53 | a non-empty row whose masked mean is 0 is lost (`mean / 0.` is inf or NaN) |
| Normalize.NaNMeanLost | arcfinder/computing.py:47-53 | a NaN row mean makes the level NaN, so every non-empty row is lost |
| Normalize.AllKept | arcfinder/computing.py:51-53 | with every masked row mean a non-zero number, no row is lost |
| Normalize.NoneLost | arcfinder/computing.py:51-53 | when an array with cells loses no row, every masked row mean is a non-zero number |
| Normalize.RowsEqualized | arcfinder/computing.py:40-54 | when no row is lost, after 'y' every row's masked mean equals the average of the original row means |
| Normalize.ColumnsEqualized | arcfinder/computing.py:55-56 | when no column is lost, 'x' keeps the shape and every column's masked mean equals the average of the original column means |
| Normalize.NormalizeOutcomes | arcfinder/computing.py:38-58 | axis None returns the array with nothing lost; any axis other than 'y' or 'x' raises Exception; 'y' raises exactly for an array without rows (IndexError at `arr[0]` for the default mask, ZeroDivisionError at `mean /= 0.` with one) or a mask that does not broadcast against a row (ValueError), and otherwise keeps the shape and loses exactly the rows whose factor is not finite; 'x' does the same on the columns |
| Normalize.DefaultMaskOutcomes | arcfinder/computing.py:41-42 | with the default mask, 'y' raises exactly for an array without rows and 'x' for one without columns, both IndexError |
| Normalize.RowMean | arcfinder/computing.py:52 | `np.mean(mask * row)` for row i |
| Normalize.ColumnMean | arcfinder/computing.py:55-56 | the masked mean of column j, a row of `arr.T` |
| Normalize.RowLevel | arcfinder/computing.py:47-50 | the loop computes the level: the average of the row means, NaN if one is |
| Normalize.ColumnLevel | arcfinder/computing.py:55-56 | the loop computes the level of `arr.T`: the average of the column means |
| Normalize.ScaleRowInPlace | arcfinder/computing.py:53 | `row *= factor` scales row i and leaves every other row unchanged |
| Normalize.ScaleColumnInPlace | arcfinder/computing.py:55-56 | scales column j and leaves every other column unchanged |
| Normalize.NormalizeRows | arcfinder/computing.py:47-54 | the in-place loops leave the 'y' result and return exactly the lost rows |
| Normalize.ScaleRows | arcfinder/computing.py:51-53 | the second loop rescales every row as Rescaled says and collects the lost ones |
| Normalize.NormalizeRow | arcfinder/computing.py:52-53 | one pass of the second loop: row i rescaled, and added to the lost set exactly when it is lost |
| Normalize.RescaledAt | arcfinder/computing.py:52-53 | row i of the result is the row scaled by its factor, or kept when there is none; it is lost exactly when it has cells and no factor |
| Normalize.NormalizeColumns | arcfinder/computing.py:55-56 | the in-place loops leave the 'x' result (transpose, normalise, transpose back) and return exactly the lost columns |
| Normalize.ScaleColumns | arcfinder/computing.py:55-56 | the second loop on `arr.T` rescales every column and collects the lost ones |
| Normalize.NormalizeColumn | arcfinder/computing.py:55-56 | one pass of that loop: column j rescaled, and added to the lost set exactly when it is lost |
| Normalize.NormalizeAxis | arcfinder/computing.py:21-58 | on error the array is unchanged, the error reported and nothing lost; otherwise the array holds the specified normalisation and the lost rows or columns are returned |
| Seqs.TransposeTwice | arcfinder/computing.py:56 | transposing twice gives back the matrix |
| Spectrum.Rot90 | arcfinder/computing.py:88 | `np.rot90` maps cell (j, cols−1−i) to (i, j) |
| Spectrum.Rot90IsFlippedTranspose | arcfinder/computing.py:88 | a quarter turn is the transpose with its rows reversed |
| Spectrum.Rot90Twice | arcfinder/computing.py:88 | two quarter turns make a half turn |
| Spectrum.HalfTurnTwice | arcfinder/computing.py:88 | two half turns give back the matrix |
| Spectrum.Rot90FourTimes | arcfinder/computing.py:88 | four quarter turns give back the matrix |
| Spectrum.Rotated | arcfinder/computing.py:88 | the copy loop yields np.rot90's cells in an array with swapped dimensions |
| Spectrum.RotBack | arcfinder/computing.py:88 | the quarter turn back: cell (i, j) comes from (rows−1−j, i) |
| Spectrum.RotBackRot90 | arcfinder/computing.py:88 | turning back a quarter turn gives the array again |
| Spectrum.RotBackThreeTurns | arcfinder/computing.py:88 | a quarter turn back is three quarter turns forward |
| Spectrum.WriteBack | arcfinder/computing.py:88 | the writes through the `np.rot90` view: `data` becomes the rotated array turned back |
| Spectrum.ClipOutliers | arcfinder/computing.py:97-103 | the in-place loop leaves the clipped array |
| Spectrum.ClippedCells | arcfinder/computing.py:97-103 | every cell at or above mean + k·std becomes the mean and every other cell is unchanged, so no cell stays at the threshold |
| Spectrum.ClipIdempotent | arcfinder/computing.py:97-103 | clipping twice is clipping once |
| Spectrum.MaskPositions | arcfinder/computing.py:347-351 | the frequency mask is 1 outside the middle half and 0 inside it; the time mask is 1 on the first quarter only |
| Spectrum.FlattenEmpty | arcfinder/computing.py:357 | the flattened spectrum is empty exactly when every row is |
| Spectrum.MaxCount | arcfinder/computing.py:358-359 | the largest histogram count is one of the counts and bounds them all |
| Spectrum.Where | arcfinder/computing.py:359-360 | `np.where(counts == v)` is the ascending list of exactly the bins holding v |
| Spectrum.WhereNone | arcfinder/computing.py:359-360 | no bin holding v gives the empty list |
| Spectrum.WhereSingle | arcfinder/computing.py:359-360 | a single bin holding v gives the list of that bin alone |
| Spectrum.PeakBinUnique | arcfinder/computing.py:357-360 | the peak bin is k exactly when k is the unique largest count |
| Spectrum.ExtremesUnique | arcfinder/computing.py:358 | bounds that are attained and enclose every value are the minimum and the maximum |
| Spectrum.GridExtremes | arcfinder/computing.py:358 | attained bounds enclosing every cell are the grid's minimum and maximum |
| Spectrum.Extremes | arcfinder/computing.py:358 | the scan returns the minimum and maximum of the array |
| Spectrum.FloorFromAboveMin | arcfinder/computing.py:358-361 | the floor `xValDb` is at least three above the histogram's lower edge |
| Spectrum.BackgroundFloorAboveMin | arcfinder/computing.py:356-361 | the floor lies at least three above the spectrum's minimum |
| Spectrum.FlooredCells | arcfinder/computing.py:361-364 | after the background step no cell is below the floor, cells at or above it are unchanged, and repeating the step changes nothing |
| Spectrum.SubtractBackground | arcfinder/computing.py:356-364 | the step always runs (the `index != -1` guard holds); the array is left floored, or unchanged with the error reported |
| Spectrum.CropScaleOne | arcfinder/computing.py:366-379 | with scale 1 and `cut_off_bottom` the window keeps rows [0, ysize/2) and all columns |
| Spectrum.HalfTrunc | arcfinder/computing.py:369-372 | `int(n/2)` is integer halving |
| Spectrum.AxisBoundsInside | arcfinder/computing.py:369-377 | for scale ≥ 1 the crop bounds lie inside the axis, around its middle |
| Spectrum.CropWindowInside | arcfinder/computing.py:366-379 | for scales ≥ 1 the window lies inside the array, and the crop is exactly the sub-block it selects |
| Spectrum.CropCellFrom | arcfinder/computing.py:379 | every cropped cell comes from the original array |
| Spectrum.CropArray | arcfinder/computing.py:379 | the copy loop yields the specified crop |
| Spectrum.DynAxesFitSpectrum | arcfinder/computing.py:111-126 | the dynamic axes match the (possibly rotated) spectrum's shape, and the frequency axis runs from freq − \|bw\|/2 to freq + \|bw\|/2 |
| Spectrum.ReverseNegated | arcfinder/computing.py:394-397 | the negated reverse of an axis |
| Spectrum.SecAxesFitCrop | arcfinder/computing.py:381-397 | the secondary axes match the cropped secondary spectrum, and the delay axis ends at 0 |
| Spectrum.NormalizeCells | arcfinder/computing.py:21-58 | normalising keeps the shape, and an array holding inf or NaN still holds it afterwards |
| Spectrum.DynamicOutcomes | arcfinder/computing.py:97-108 | `get_dynamic_spectrum` raises exactly for an array without rows (frequency normalisation) or without columns (time normalisation), both IndexError; the shape is kept; without normalisation the result is the clipped array, finite |
| Spectrum.NormalizeInPlace | arcfinder/computing.py:105-108 | one in-place normalisation step gives the specified cells and finite flag, or the error with the array unchanged |
| Spectrum.GetDynamicSpectrum | arcfinder/computing.py:76-109 | the result is the rotated (if asked), clipped and normalised data, or the error; without rotation it is `data` itself; with rotation `data` ends as the result turned back, as the view's writes leave it |
| Spectrum.SecondaryPlainCrop | arcfinder/computing.py:326-379 | with no normalisation, no background step and scale 1, the secondary spectrum is its top half |
| Spectrum.SecondaryNormalizedOutcomes | arcfinder/computing.py:346-352 | the normalisations raise exactly for a spectrum without rows: IndexError building the frequency mask, otherwise ZeroDivisionError from the time normalisation; with neither the spectrum is kept, finite |
| Spectrum.SecondaryAboveFloor | arcfinder/computing.py:356-379 | with background subtraction, the normalised spectrum was finite and the result is finite with no cell below the floor |
| Spectrum.SecondaryCleanup | arcfinder/computing.py:326-379 | the in-place clean-up and crop yield the specified secondary spectrum, or its error; a non-finite spectrum makes the histogram raise ValueError |
| SecondarySpectrum.CompleteFits | arcfinder/computing.py:494-512 | a complete grid is a valid input for the reducers, with a non-empty y axis |
| SecondarySpectrum.CropPercentKeys | arcfinder/computing.py:423-429 | the y key is open-ended and the x key symmetric about 0 |
| SecondarySpectrum.CropPercentSpec | arcfinder/computing.py:416-430 | a scale outside [0, 1] or an empty x axis raises ValueError |
| SecondarySpectrum.CropKeepsComplete | arcfinder/computing.py:416-442 | cropping a complete grid yields a complete grid |
| SecondarySpectrum.Secondary.Crop | arcfinder/computing.py:432-442 | `sec` becomes the cropped grid, or stays as it was with the error reported; the search results are unchanged |
| SecondarySpectrum.Secondary.CropPercent | arcfinder/computing.py:416-430 | as Crop, with the percentage keys |
| SecondarySpectrum.Secondary.MakeOneDByQuadratic | arcfinder/computing.py:460-491 | on success `etas` is ascending, is exactly the eta list, and `powers[i]` is the `crunchy` power for `etas[i]`, with `made_1D` set; on error nothing changes |
| SecondarySpectrum.Secondary.PowerAlongParabola | arcfinder/computing.py:494-556 | on success the arclet powers, keyed by point, are stored under eta in `parabola_power`; on error (a zero eta raises ZeroDivisionError) nothing changes |
| SecondarySpectrum.Secondary.ParabolaWidth | arcfinder/computing.py:559-591 | on success `offsets` is ascending, is exactly the offset list, and each power is the `crunchy3` power for its offset |
| Weights.Cut | arcfinder/multiprocessing_helper_functions.py:60-62 | None exactly when the weight is below the cut-off; otherwise the weight itself, at least the cut-off |
| Weights.WeightFunction | arcfinder/multiprocessing_helper_functions.py:53-62 | the Gaussian of the distance to the parabola, or None exactly when below `e^-3` |
| Weights.WeightFunction2 | arcfinder/multiprocessing_helper_functions.py:64-70 | the Gaussian of the distance to the point, or None exactly when below `e^-3` |
| Weights.WeightFunction3 | arcfinder/multiprocessing_helper_functions.py:72-81 | the Gaussian of the distance to the shifted parabola, measured from the unshifted origin, or None exactly when below `e^-3` |
| Weights.WeightFunction3AtOrigin | arcfinder/multiprocessing_helper_functions.py:169-171 | with offset 0, `weight_function3` receives the arguments `weight_function` does and returns the same weight |
| Weights.WeightAt | arcfinder/multiprocessing_helper_functions.py:97-99 | every weight that is returned reaches the cut-off |
| Weights.WeightPositive | arcfinder/multiprocessing_helper_functions.py:97-99 | with a positive cut-off, every weight that is returned is positive |
| Weights.RowCells | arcfinder/multiprocessing_helper_functions.py:93-96 | row yi visits (y, x, value) for every x in axis order |
| Weights.VisitCell | arcfinder/multiprocessing_helper_functions.py:97-104 | visiting a cell appends one term to each of `powers` and `powers_norm` |
| Weights.FilterTruthy | arcfinder/multiprocessing_helper_functions.py:105-106 | `filter(None, …)` keeps no zero |
| Weights.FilterTruthySum | arcfinder/multiprocessing_helper_functions.py:105-106 | dropping None and zero terms leaves the sum unchanged |
| Weights.IncludedPositive | arcfinder/multiprocessing_helper_functions.py:97-104 | every included cell carries a positive weight |
| Weights.SumsOverIncluded | arcfinder/multiprocessing_helper_functions.py:97-106 | both sums run over the included cells only: Σ value·w and Σ w; excluded cells add to neither |
| Weights.TotalWeightPositive | arcfinder/multiprocessing_helper_functions.py:106-111 | the total weight is positive exactly when some cell is included |
| Weights.WeightedBetween | arcfinder/multiprocessing_helper_functions.py:106-111 | the weighted sum lies between lo·Σw and hi·Σw |
| Weights.MeanBetween | arcfinder/multiprocessing_helper_functions.py:106-111 | the weighted mean lies between the smallest and largest included value |
| Weights.ReduceIsWeightedMean | arcfinder/multiprocessing_helper_functions.py:97-111 | the reducer's power is Σ(value·w)/Σ(w) over the included cells, and NaN exactly when none is included |
| Weights.ReduceBetween | arcfinder/multiprocessing_helper_functions.py:97-111 | with a cell included, the power lies between the minimum and maximum included grid values |
| Weights.ReduceRow | arcfinder/multiprocessing_helper_functions.py:93-104 | the inner loop extends both lists by the terms of row yi |
| Weights.Reduce | arcfinder/multiprocessing_helper_functions.py:93-111 | the double loop and the final division give the specified power |
| Weights.SameWeightsSamePower | arcfinder/multiprocessing_helper_functions.py:93-111 | reducers whose weights agree everywhere give the same power |
| Weights.PixelSpacing | arcfinder/multiprocessing_helper_functions.py:122-123 | in all three reducers the spacing is read from the first two axis entries; an axis shorter than 2 raises IndexError |
| Weights.ClampSigmaMeaning | arcfinder/multiprocessing_helper_functions.py:125-130 | in `crunchy2` and `crunchy3` each sigma component is raised to its axis's pixel spacing, components already at least the spacing are unchanged, and the default sigma is the spacing |
| Weights.ReducerOutcomes | arcfinder/multiprocessing_helper_functions.py:83-181 | each reducer returns its key (eta, pt or offset) unchanged, and fails only for a short axis, which for `crunchy` only matters with the default sigma |
| Weights.Crunchy3AtZeroIsCrunchy | arcfinder/multiprocessing_helper_functions.py:158-171 | with offset 0 and the default sigma, `crunchy3` returns the power `crunchy` returns for the same eta |
| Weights.Crunchy | arcfinder/multiprocessing_helper_functions.py:83-111 | the method computes the specified `crunchy` result |
| Weights.Crunchy2 | arcfinder/multiprocessing_helper_functions.py:113-146 | the method computes the specified `crunchy2` result |
| Weights.Crunchy3 | arcfinder/multiprocessing_helper_functions.py:148-181 | the method computes the specified `crunchy3` result |
| FitsDb.Remove | fitsdb/sqlite.py:202-203 | the dict without the key: no longer than before, and only original entries with other keys |
| FitsDb.RemoveGet | fitsdb/sqlite.py:202-203 | after `del header['']`, looking up '' gives nothing and every other key keeps its value |
| FitsDb.RemoveKeeps | fitsdb/sqlite.py:202-203 | removing one key leaves every other key's value |
| FitsDb.RemoveAbsent | fitsdb/sqlite.py:202-203 | removing an absent key changes nothing |
| FitsDb.RemoveDistinct | fitsdb/sqlite.py:202-203 | removing a key keeps the keys distinct |
| FitsDb.FixCard | fitsdb/sqlite.py:205-206 | an Undefined value becomes None; every other value is kept |
| FitsDb.FixValuesGet | fitsdb/sqlite.py:204-206 | replacing values keeps the keys, and each lookup gives the fixed value |
| FitsDb.FixedHeader | fitsdb/sqlite.py:195-210 | the fixed header is no longer than the original |
| FitsDb.FixHeader | fitsdb/sqlite.py:195-210 | the method computes the fixed header |
| FitsDb.FixHeaderMeaning | fitsdb/sqlite.py:195-210 | the '' key is gone, no value is Undefined, and every other key keeps its value with Undefined replaced by None |
| FitsDb.AddColumns | fitsdb/sqlite.py:295-308 | the old columns stay first; afterwards every non-empty header is a column, and nothing else is added |
| FitsDb.AddColumnsPresent | fitsdb/sqlite.py:295-308 | headers that are already columns add nothing |
| FitsDb.AddColumnsIdempotent | fitsdb/sqlite.py:295-308 | a second `check_columns` with the same headers adds nothing |
| FitsDb.AddColumnsDistinct | fitsdb/sqlite.py:295-308 | names already present are not added again, so the columns stay distinct |
| FitsDb.DB.CheckColumns | fitsdb/sqlite.py:295-308 | the loop appends exactly the missing non-empty headers |
| FitsDb.Clause | fitsdb/sqlite.py:394-411 | one attribute's clause is refused exactly for an unknown column (NameError) or a non-MJD/FREQ value with other than one or two tokens (ValueError) |
| FitsDb.ClausesErrStays | fitsdb/sqlite.py:390-411 | once a clause is refused, later attributes do not change the outcome |
| FitsDb.ClausesOutcome | fitsdb/sqlite.py:390-411 | the WHERE clause fails exactly when some attribute is refused, with the error of the first refused one |
| FitsDb.ClausesEnd | fitsdb/sqlite.py:396-411 | the built clauses end in " AND " |
| FitsDb.ExtractOutcome | fitsdb/sqlite.py:376-412 | `extract` fails exactly as its first refused attribute does, and an empty dict gives the plain SELECT with no values |
| FitsDb.TrimAnd | fitsdb/sqlite.py:412 | `command[:-4]` removes the trailing "AND " |
| FitsDb.ExtractCommand | fitsdb/sqlite.py:386-412 | the query is the SELECT, " WHERE ", and the clauses without their last "AND ", with the clauses' values |
| FitsDb.DB.Extract | fitsdb/sqlite.py:376-412 | the loop builds the specified query or raises the specified error |
| FitsDb.CountRange | fitsdb/sqlite.py:397-405 | a range clause holds two placeholders |
| FitsDb.CountLike | fitsdb/sqlite.py:408-409 | a LIKE clause holds one placeholder |
| FitsDb.RangeTokens | fitsdb/sqlite.py:396-401 | MJD and FREQ always add two placeholders but bind one value per space-separated token |
| FitsDb.ClausePlaceholders | fitsdb/sqlite.py:394-411 | a clause whose range value has two tokens holds one placeholder per bound value |
| FitsDb.ClausesPlaceholders | fitsdb/sqlite.py:390-411 | the same holds for all the clauses together |
| FitsDb.ExtractPlaceholders | fitsdb/sqlite.py:386-412 | the query's `?` count equals `len(values)` whenever every range value has two tokens |
| FitsDb.DeletePlaceholders | fitsdb/sqlite.py:426-434 | an empty id list raises ValueError; otherwise each of the two DELETEs holds exactly one placeholder per id |
| FitsDb.DB.Delete | fitsdb/sqlite.py:426-434 | the loop builds the two specified DELETEs |
| FitsDb.InsertKeys | fitsdb/sqlite.py:331-333 | the INSERT names two columns more than the header has |
| FitsDb.InsertPlaceholders | fitsdb/sqlite.py:331-347 | the INSERT names filename, keywords, then the header keys, and binds basename, relative path, then the header values in the same order; `?` count, values and columns all number len(header)+2 |
| FitsDb.DB.InsertCommand | fitsdb/sqlite.py:331-347 | the step-by-step construction yields the specified INSERT |
| Frontend.PutGivenGet | pulsarpkg_frontend.py:65-72 | storing a truthy field sets its key and leaves every other key alone |
| Frontend.FieldSteps | pulsarpkg_frontend.py:65-73 | each stored field key is fresh when it is stored |
| Frontend.FieldAttrsMeaning | pulsarpkg_frontend.py:65-73 | filename→"filename", pulsar→"SOURCE", mjd→"MJD" and freq→"FREQ", each only when the argument is truthy |
| Frontend.ZipPairs | pulsarpkg_frontend.py:76-77 | `zip` pairs index by index, bounded by the shorter list |
| Frontend.PutAll | pulsarpkg_frontend.py:77-78 | storing the pairs keeps the keys distinct |
| Frontend.PutAllGet | pulsarpkg_frontend.py:77-78 | a key given in the pairs takes its last paired value, so later duplicates overwrite earlier ones; other keys are unchanged |
| Frontend.AttrDictMeaning | pulsarpkg_frontend.py:57-81 | the attribute dict is the fields overridden by the zipped pairs, and holds no pair unless both lists are truthy |
| Frontend.Widen | pulsarpkg_frontend.py:79-80 | the existing output columns stay first and unchanged |
| Frontend.WidenGet | pulsarpkg_frontend.py:79-80 | every new attribute gets the standard width; existing columns keep theirs |
| Frontend.AsWrittenFails | pulsarpkg_frontend.py:76-80 | as written, any attr pair raises KeyError on `outp['keys']`; without pairs the dict is the intended one |
| Frontend.MainColumnsDistinct | pulsarpkg_frontend.py:105-112 | the output columns are distinct and none is named 'keys' |
| Frontend.Columns.constructor | pulsarpkg_frontend.py:105-112 | `id`:4 unless local files are listed, then filename:30, ORIGIN:23, MJD:18, FREQ:12, BW:10 |
| Frontend.CreateAttrDict | pulsarpkg_frontend.py:57-81 | the method returns the intended attribute dict and widens `outp` with the new attributes |
| Frontend.HeaderLines | pulsarpkg_frontend.py:131-137 | the loop builds the header text and the rule line |
| Frontend.RuleCellsJoin | pulsarpkg_frontend.py:134 | the rule cells are the dashes joined by '\|' plus a final '\|', of total width Σ(w+3) |
| Frontend.RuleLineShape | pulsarpkg_frontend.py:134-137 | the rule line is the dashes joined by '\|', of length Σ(w+3) − 1 |
| Frontend.HeaderCellsJoin | pulsarpkg_frontend.py:133 | the header cells are ' ' + the padded keys joined by ' \| ' + ' \|' |
| Frontend.HeaderTextShape | pulsarpkg_frontend.py:133-136 | the header text drops the final ' \|' |
| Frontend.HeaderCellsLength | pulsarpkg_frontend.py:133-134 | when every key fits its width, a header cell is as wide as its rule cell |
| Frontend.HeaderFitsRule | pulsarpkg_frontend.py:133-137 | the printed header is one character shorter than the printed rule |
| Plotting.EmptyTitleCut | arcfinder/plotting.py:14-22 | as written, an empty attribute dict gives the title 'pulsarpkg resu' |
| Plotting.TitleItemsJoin | arcfinder/plotting.py:17-18 | the accumulated items are the 'k: v' parts joined by ', ' with a trailing ', ' |
| Plotting.TitleClosed | arcfinder/plotting.py:14-21 | for a non-empty dict the `[:-2]` trim removes exactly the trailing ', ' before ' )' is added |
| Plotting.TitleAgrees | arcfinder/plotting.py:14-22 | the title as written agrees with the intended one exactly when the dict is non-empty |
| Plotting.Pdf.constructor | arcfinder/plotting.py:10-23 | Title is the intended title and Author 'pulsarpkg'; the other info entries are unchanged |
| Plotting.RangeBounds | arcfinder/plotting.py:41-46 | the default axis 0..n−1 has minimum 0 and maximum n−1 |
| Plotting.DefaultExtent | arcfinder/plotting.py:32-50 | without axes the extent is [0, len(row)−1, 0, len(rows)−1]; an empty image raises |
| Plotting.GivenExtent | arcfinder/plotting.py:45-46 | given axes, the extent is their attained minima and maxima |
| Plotting.CurveOnParabola | arcfinder/plotting.py:102-109 | `plot_x[i] = x + offset` and `parab[i] = eta·x² − eta·offset²`, both as long as the axis |
| Plotting.DefaultOffset | arcfinder/plotting.py:98-109 | without offsets, each eta draws one curve, at offset 0, on the plain parabola |
| Plotting.OverplotParabolas | arcfinder/plotting.py:98-112 | the nested loops draw the specified curves for every (eta, offset) |
| Plotting.GiveEtaList | arcfinder/plotting.py:149-155 | plotting's `__give_eta_list` gives the same list as the search's: the average for one eta, ZeroDivisionError for a zero smallest eta, ValueError for a negative count, otherwise `num_etas` positive values |

## Left out

- FFT, `fftshift`, `log10`, histogram binning, mean and standard deviation are not computed. The dynamic and secondary spectra take the resulting mean, std and histogram counts as parameters.
- `gaussian`, `closest_point_on_the_parabola`, `dist_from_parabola`, `sqrt` and `exp(-3)` are fields of `Weights.Kernel`. They are uninterpreted, because they use floating-point, cube-root and complex arithmetic.
- `np.linspace` is modelled exactly over the reals (`Seqs.Linspace`). Float rounding is not modelled.
- `multiprocessing.Pool` runs as a sequential map. Creating the pool with fewer than one process raises ValueError. Concurrency and the order in which workers finish are not modelled.
- The message text of exceptions is not modelled. Only the exception kind is.
- SQLite itself is not modelled. This covers the connection, statement execution, DDL and triggers, `get_id`, the UPDATE branch of `ingest_data`, BLOB (de)serialisation and the progress report. The builders return the command text and the bound values.
- FITS and psrchive reading, `glob`, file writes and `create_hdulist_from_row` are left out. They are I/O and foreign libraries.
- matplotlib rendering, `PdfPages`, `show_dyn`, `show_sec` and `show_power_vs_eta` draw only. The model keeps the values they compute.
- argparse, `print`, CSV output and the query dispatch in `main` are command-line plumbing.
- `functions.check_object_type` builds a TypeError but does not raise it. It is not part of this model.
- FitsDb.FixHeader: returns the fixed dict rather than mutating the caller's header in place.
- Indexed.Indexed2D.SetData: data cells are already `real`, so the element-wise float cast is the identity.
- The counts `num_arclets / 2`, `num_offsets / 2` and `nchans / 2` are Python 3 floats passed to linspace, which truncates them with `int()`. They are modelled by `PyCore.HalfCount`, which rounds toward zero, so a count of −1 gives an empty list.
- `axis is 'y'`, `attribute is 'MJD'`, `num_etas is not 1` and `header is not ''` (fitsdb/sqlite.py:305) are identity comparisons, modelled as equality.
- Frontend.CreateAttrDict: models the evidently intended membership test (see Findings). As written, the `outp[a] = stdlength` branch cannot be reached.
- Spectrum.CropWindowInside: proved for scales of at least 1 only. A scale below 1 gives negative bounds that Python's slicing wraps around.
- Frontend.Columns.constructor: each `outp[k] = w` stores a fresh key, so the constructor appends directly.
- Search.EtaList: a negative smallest eta gives NaN etas through `np.sqrt`; the requires keep the caller's square roots positive, so that range is not modelled.
- Plotting.GiveEtaList: a negative smallest eta gives NaN etas through `np.sqrt`; the requires are those of Search.EtaList, so that range is not modelled here either.
- Search.MaxX: for a negative `max(y) / eta` (a positive eta on a cropped delay axis that lies below 0), `np.sqrt` gives NaN, `NaN > max_possible_x` is false, and the NaN half-width gets past the cap and makes every arclet NaN. The caller's `sqrt` returns a real, so this case is not modelled, and the cap bound holds only for the real-valued square roots the model admits.
- Normalize.NormalizeAxis: inf and NaN cells are not represented. A row or column numpy fills with them keeps its old cells as placeholders and is reported in the lost set.
- Spectrum.GetDynamicSpectrum: the `np.rot90` view is modelled as a copy written back into `data` at the end, so only the final state of `data` is stated, not its state between the steps.
- Spectrum.SecondaryCleanup: `finite` false means the normalised spectrum held inf or NaN somewhere; the crop may drop those cells, and the model does not track which.
- Plotting.Pdf.constructor: models the evidently intended title (see Findings). As written, an empty attribute dict gives 'pulsarpkg resu'.

## Findings

| source | as written | input that shows it | evidently intended | confidence | as-written member | corrected member |
|---|---|---|---|---|---|---|
| arcfinder/plotting.py:14-22 | `title = title[:-2]` runs even when no item was appended | an empty `attr_dict` gives the title 'pulsarpkg resu' | trim only after items were appended, giving 'pulsarpkg result' | high (not executed) | Plotting.TitleAsWritten, Plotting.EmptyTitleCut | Plotting.PdfTitle, Plotting.TitleAgrees, Plotting.Pdf.constructor |
| pulsarpkg_frontend.py:79-80 | `if a not in outp['keys']` looks up a key that `main`'s `outp` never has | any run with both `--attr` and `--attr_value` given raises KeyError | `if a not in outp:` (or `outp.keys()`) | high (not executed) | Frontend.AttrDictAsWritten, Frontend.AsWrittenFails | Frontend.AttrDict, Frontend.CreateAttrDict, Frontend.WidenGet |
