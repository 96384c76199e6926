# Ultra-lightweight human detection and benchmark tool: a Dafny model

This project models the sequential logic of two ESP-WHO examples: the
ultra-lightweight human detector (UHD) and the model benchmark tool.

- **Detection-head decode** (`UhdDetect`, `UhdLayout`, `BoxList`). This is
  `UhdLitePostprocessor::postprocess` and `parse_maps`.
  - It checks the `box` and `quality` output heads: presence, rank 4, a
    channel-minor (NHWC) or channel-major (NCHW) layout, the anchor tables,
    and the element type.
  - It walks the grid row by row, cells left to right and anchors innermost,
    and computes the flat offsets into both tensors.
  - It gates each anchor on its score and drops non-finite or inverted boxes.
  - It inserts each survivor into `m_box_list` at its `upper_bound` under
    `greater_box`.
  - The post-processor is a class. `boxList` is a field that the loop methods
    reassign.
- **Anchor-table lookup** (`UhdConstants`). `get_uhd_anchor_set` selects the
  W40 or W32 tables by substring, with "w40" checked first.
- **Grey LCD display** (`GrayLcdDisp`, `Rgb565`). `SimpleGrayLCDDisp` is a
  class with the result queue, the current result, the grey buffer (an array)
  and the RGB565 palette.
  - `update_result` pops the results that are not later than the frame.
  - The converters write big-endian grey RGB565 pixels in an index loop.
  - The display task loop dispatches STOP, PAUSE and new-frame events.
- **Input-mode parsing** (`InputModeCli`). `parse_input_mode` normalises text
  into a 31-character buffer in a loop and then runs the `strcmp` chain.
  `input_mode_to_string` gives back a spelling that parses to the same mode.
- **Benchmark** (`BenchmarkTool`).
  - `compute_stats` finds the minimum, maximum, sum and percentile reads.
  - `app_main` counts elements and picks a zero-filled buffer by dtype.
  - `free_model_blob` releases and resets the blob.

Single-precision values are a datatype `Float` with finite, infinite and NaN
cases. Only their IEEE comparisons are modelled. Dequantisation, `sigmoid_f`,
`softplus_f`, the box geometry and the luminance formula are passed in as
uninterpreted functions. `greater_box` is any strict weak order.

## Model

| member | source | states |
|---|---|---|
| `UhdConstants.GetUhdAnchorSet` | examples/ultra_lightweight_human_detection/components/uhd_detect/uhd_constants.hpp:57-75 | Success needs a name and an `out` record, and it installs well-formed tables with count 8. Failure leaves `out` exactly as it was. `out` is written only when it exists. |
| `UhdConstants.HasSubstringAt` | examples/ultra_lightweight_human_detection/components/uhd_detect/uhd_constants.hpp:62-73 | The recursive `strstr` test holds iff the pattern occurs at some position of the name. |
| `UhdConstants.TableSizes` | examples/ultra_lightweight_human_detection/components/uhd_detect/uhd_constants.hpp:13-55 | All four tables have 16 entries, two per anchor for 8 anchors. Both table pairs are well-formed anchor sets. |
| `UhdConstants.AnchorIndicesInRange` | examples/ultra_lightweight_human_detection/components/uhd_detect/uhd_constants.hpp:13-55 | For every anchor below the set's count, entries 2a and 2a+1 exist in both tables. |
| `UhdConstants.NullArgumentsFail` | examples/ultra_lightweight_human_detection/components/uhd_detect/uhd_constants.hpp:59-61 | A null name or a null `out` returns false and writes nothing. |
| `UhdConstants.W40Selected` | examples/ultra_lightweight_human_detection/components/uhd_detect/uhd_constants.hpp:62-67 | A name containing "w40" yields the W40 tables with count 8, whatever else it contains, "w32" included. |
| `UhdConstants.W32Selected` | examples/ultra_lightweight_human_detection/components/uhd_detect/uhd_constants.hpp:68-73 | A name containing "w32" but not "w40" yields the W32 tables with count 8. |
| `UhdConstants.UnknownNameFails` | examples/ultra_lightweight_human_detection/components/uhd_detect/uhd_constants.hpp:74 | A name containing neither tag returns false and leaves `out` untouched. |
| `UhdConstants.DefaultNameHasNoTables` | examples/ultra_lightweight_human_detection/components/uhd_detect/uhd_detect.cpp:21-23 | The default model name "uhd_model" matches no table. |
| `UhdLayout.SelectLayout` | examples/ultra_lightweight_human_detection/components/uhd_detect/uhd_detect.cpp:126-133 | NHWC is chosen iff its test holds, even when the NCHW test also holds. NCHW is chosen iff only its test holds. Nothing is chosen iff neither holds. Under the chosen layout the box head has exactly 4 channels per anchor, so the channel check at lines 162-165 never fails after this point. |
| `UhdLayout.QualityOffset` | examples/ultra_lightweight_human_detection/components/uhd_detect/uhd_detect.cpp:188-189 | `idx_q` in both layouts lies below H·W·na for every in-range (y, x, a). |
| `UhdLayout.QualityOffsetInjective` | examples/ultra_lightweight_human_detection/components/uhd_detect/uhd_detect.cpp:188-189 | Distinct (y, x, a) give distinct quality offsets in both layouts. |
| `UhdLayout.BoxFieldOffset` | examples/ultra_lightweight_human_detection/components/uhd_detect/uhd_detect.cpp:197-206 | `idx_b + k` (NHWC) and `idx_b + k·H·W` (NCHW) lie below 4·na·H·W for k in 0..3. |
| `UhdLayout.BoxFieldOffsetInjective` | examples/ultra_lightweight_human_detection/components/uhd_detect/uhd_detect.cpp:197-206 | Distinct (y, x, a, k) give distinct box offsets, so an anchor's four fields are pairwise distinct. |
| `UhdLayout.ParseGuardReadsInBounds` | examples/ultra_lightweight_human_detection/components/uhd_detect/uhd_detect.cpp:158-168 | Under the corrected guard every read stays in bounds: the quality offset inside the quality tensor, each box offset inside the box tensor, and 2a+1 below twice the table's anchor count. Well-formed tables hold 2·count entries, so that index is inside them. |
| `UhdLayout.QualityReadEscapesAsWritten` | examples/ultra_lightweight_human_detection/components/uhd_detect/uhd_detect.cpp:158-168 | Box shape [1,2,2,4] with quality shape [1,1,1,1] passes the checks of `postprocess` and `parse_maps`. It then reads quality element 3 of a one-element tensor. |
| `UhdLayout.AnchorReadEscapesAsWritten` | examples/ultra_lightweight_human_detection/components/uhd_detect/uhd_detect.cpp:166-168 | Nine anchors against the 8-anchor tables pass the checks of `parse_maps`, which only warns. Anchor 8 then reads entry 17 of a 16-entry table. |
| `BoxList.UpperBoundPos` | examples/ultra_lightweight_human_detection/components/uhd_detect/uhd_detect.cpp:230 | The `upper_bound` position: no earlier element is preceded by the new box, and the element at the position, if any, is. |
| `BoxList.UpperBound` | examples/ultra_lightweight_human_detection/components/uhd_detect/uhd_detect.cpp:230 | The binary search over a sorted list returns exactly that position. |
| `BoxList.InsertShape` | examples/ultra_lightweight_human_detection/components/uhd_detect/uhd_detect.cpp:229-231 | An insertion grows the list by exactly one. Removing the new box gives back the old list in its order. The new box lands after every element it does not precede, and the multiset gains exactly the new box. |
| `BoxList.InsertSorted` | examples/ultra_lightweight_human_detection/components/uhd_detect/uhd_detect.cpp:229-231 | Inserting at the upper bound keeps a list sorted by `greater_box` sorted. |
| `BoxList.InsertCounts` | examples/ultra_lightweight_human_detection/components/uhd_detect/uhd_detect.cpp:229-231 | One insertion grows the list by one and adds exactly the new box to its multiset. |
| `BoxList.InsertAllSorted` | examples/ultra_lightweight_human_detection/components/uhd_detect/uhd_detect.cpp:185-231 | Inserting a run of candidates one by one into a sorted list keeps it sorted. |
| `BoxList.InsertAllContents` | examples/ultra_lightweight_human_detection/components/uhd_detect/uhd_detect.cpp:185-231 | Inserting a run of candidates one by one grows the list by their number and adds exactly those candidates, as a multiset. |
| `DlTypes.NotLeIsLt` | examples/ultra_lightweight_human_detection/components/uhd_detect/uhd_detect.cpp:224-226 | For finite corners, `!(x2 <= x1)` is exactly `x1 < x2`. |
| `DlTypes.TruncToInt` | examples/ultra_lightweight_human_detection/components/uhd_detect/uhd_detect.cpp:228 | For a finite value that fits an `int`, `(int)f` truncates toward zero: the result is within one of f, on the side of zero. |
| `UhdDetect.TruncMonotone` | examples/ultra_lightweight_human_detection/components/uhd_detect/uhd_detect.cpp:224-228 | Truncation keeps the order of finite corners, so x1 < x2 gives (int)x1 ≤ (int)x2. |
| `UhdDetect.Candidate` | examples/ultra_lightweight_human_detection/components/uhd_detect/uhd_detect.cpp:190-228 | A cell and anchor yields a box iff its score is not below the threshold and its corners are finite with x1 < x2 and y1 < y2. A box has category 0, the cell's score, 4 non-inverted integer corners and no key points. |
| `UhdDetect.AnchorCandsFromCells` | examples/ultra_lightweight_human_detection/components/uhd_detect/uhd_detect.cpp:187 | Every candidate of one cell's anchor loop comes from an in-range cell and anchor. |
| `UhdDetect.RowCandsFromCells` | examples/ultra_lightweight_human_detection/components/uhd_detect/uhd_detect.cpp:186-187 | Every candidate of one row comes from an in-range cell and anchor. |
| `UhdDetect.GridCandsFromCells` | examples/ultra_lightweight_human_detection/components/uhd_detect/uhd_detect.cpp:185-187 | Every candidate of the whole grid comes from an in-range cell and anchor. |
| `UhdDetect.DecodedBoxesAccepted` | examples/ultra_lightweight_human_detection/components/uhd_detect/uhd_detect.cpp:192-228 | Every box a pass adds has category 0, a score not below the threshold, 4 corners and no key points. Its score is that of some in-range cell, whose corners are finite and non-degenerate. |
| `UhdDetect.DecodePassContents` | examples/ultra_lightweight_human_detection/components/uhd_detect/uhd_detect.cpp:185-231 | After a pass the list is still sorted. It holds the old boxes plus exactly the grid's accepted candidates, and it grew by their number. |
| `UhdDetect.InstalledAnchorSet` | examples/ultra_lightweight_human_detection/components/uhd_detect/uhd_detect.cpp:107-109 | The installed set is always well-formed. It has tables iff the lookup succeeds, and otherwise it is the null set. |
| `UhdDetect.Classify` | examples/ultra_lightweight_human_detection/components/uhd_detect/uhd_detect.cpp:114-149 | Decoding is reached only with both outputs present, a decodable element type, and the rank, layout and anchor checks passed. Without anchor tables it is never reached. |
| `UhdDetect.DefaultModelNeverDecodes` | examples/ultra_lightweight_human_detection/components/uhd_detect/uhd_detect.cpp:107-109 | With the default name, the constructor installs the null set and no call of `postprocess` ever decodes. |
| `UhdDetect.DecodeGuardCompletesParseGuard` | examples/ultra_lightweight_human_detection/components/uhd_detect/uhd_detect.cpp:158-168 | Once `postprocess` decodes, the corrected checks of `parse_maps` hold exactly when the corrected guard under which every read is in bounds holds. |
| `UhdDetect.GuardedContextValid` | examples/ultra_lightweight_human_detection/components/uhd_detect/uhd_detect.cpp:158-209 | Under the corrected guard, well-formed tensors and tables cover every read of the loop. |
| `UhdDetect.UhdLitePostprocessor.constructor` | examples/ultra_lightweight_human_detection/components/uhd_detect/uhd_detect.cpp:100-110 | The matching tables, or the null set when none match, are installed with an empty candidate list. |
| `UhdDetect.UhdLitePostprocessor.Postprocess` | examples/ultra_lightweight_human_detection/components/uhd_detect/uhd_detect.cpp:112-152 | The outcome is the first failing check, or decoding. Every early return leaves the list unchanged. On decoding, the list handed to the out-of-scope `nms()` is `DecodedList` of the old one, and it stays sorted. |
| `UhdDetect.UhdLitePostprocessor.ParseMaps` | examples/ultra_lightweight_human_detection/components/uhd_detect/uhd_detect.cpp:156-235 | The list becomes the old list with every accepted grid candidate inserted in loop order. It is unchanged when the guard fails, and it stays sorted. |
| `UhdDetect.UhdLitePostprocessor.DecodeGrid` | examples/ultra_lightweight_human_detection/components/uhd_detect/uhd_detect.cpp:185 | The row loop inserts the candidates of all rows in order. |
| `UhdDetect.UhdLitePostprocessor.DecodeRow` | examples/ultra_lightweight_human_detection/components/uhd_detect/uhd_detect.cpp:186 | The cell loop appends one row's candidates, in order, to those already inserted. |
| `UhdDetect.UhdLitePostprocessor.DecodeCell` | examples/ultra_lightweight_human_detection/components/uhd_detect/uhd_detect.cpp:187 | The anchor loop appends one cell's candidates, in order, to those already inserted. |
| `UhdDetect.UhdLitePostprocessor.DecodeAnchor` | examples/ultra_lightweight_human_detection/components/uhd_detect/uhd_detect.cpp:188-231 | The list gains the anchor's candidate at its upper bound when one survives the gates, and is unchanged otherwise. The list stays sorted. |
| `Rgb565.Pack565` | examples/ultra_lightweight_human_detection/main/simple_gray_lcd_disp.cpp:35 | The packed pixel's red, green and blue fields are r>>3, g>>2 and b>>3. |
| `Rgb565.Red5` | examples/ultra_lightweight_human_detection/main/simple_gray_lcd_disp.cpp:76 | The red field fits in 5 bits. |
| `Rgb565.Green6` | examples/ultra_lightweight_human_detection/main/simple_gray_lcd_disp.cpp:77 | The green field fits in 6 bits. |
| `Rgb565.Blue5` | examples/ultra_lightweight_human_detection/main/simple_gray_lcd_disp.cpp:78 | The blue field fits in 5 bits. |
| `Rgb565.Bytes565` | examples/ultra_lightweight_human_detection/main/simple_gray_lcd_disp.cpp:86-87 | A pixel becomes two bytes, high byte first, that read back as the same pixel. |
| `Rgb565.Expand5` | examples/ultra_lightweight_human_detection/main/simple_gray_lcd_disp.cpp:80 | `(v*255+15)/31` maps 0 to 0 and 31 to 255. Dropping its low 3 bits gives v back. |
| `Rgb565.Expand6` | examples/ultra_lightweight_human_detection/main/simple_gray_lcd_disp.cpp:81 | `(v*255+31)/63` maps 0 to 0 and 63 to 255. Dropping its low 2 bits gives v back. |
| `Rgb565.Gray565` | examples/ultra_lightweight_human_detection/main/simple_gray_lcd_disp.cpp:85 | A grey pixel's red and blue fields are both y>>3 and its green field is y>>2. |
| `Rgb565.PackBytesRoundTrip` | examples/ultra_lightweight_human_detection/main/simple_gray_lcd_disp.cpp:35-36 | Packing then splitting into bytes loses only the low bits of each channel. |
| `GrayLcdDisp.Earlier` | examples/ultra_lightweight_human_detection/main/simple_gray_lcd_disp.cpp:108-113 | `compare_timestamp` is strict lexicographic < on (seconds, microseconds). |
| `GrayLcdDisp.EarlierIsStrictTotalOrder` | examples/ultra_lightweight_human_detection/main/simple_gray_lcd_disp.cpp:108-113 | The comparison is asymmetric, total on distinct timestamps and transitive. |
| `GrayLcdDisp.PopCount` | examples/ultra_lightweight_human_detection/main/simple_gray_lcd_disp.cpp:116-125 | The popped count is the longest prefix not later than the frame. The next entry, if any, is strictly later. |
| `GrayLcdDisp.PopCountUnique` | examples/ultra_lightweight_human_detection/main/simple_gray_lcd_disp.cpp:116-125 | Those two facts determine the popped count. |
| `GrayLcdDisp.SortedQueuePopsAllEarlier` | examples/ultra_lightweight_human_detection/main/simple_gray_lcd_disp.cpp:116-125 | On a time-ordered queue an entry is popped iff it is not later than the frame. |
| `GrayLcdDisp.AfterUpdate` | examples/ultra_lightweight_human_detection/main/simple_gray_lcd_disp.cpp:116-125 | The queue keeps a suffix whose front is strictly later than the frame. The current result is the last popped entry, or unchanged when nothing was popped. |
| `GrayLcdDisp.PoppedTwice` | examples/ultra_lightweight_human_detection/main/simple_gray_lcd_disp.cpp:116-125 | Two successive prefix pops amount to one prefix pop of the original queue, with the current result taken from the last popped entry. |
| `GrayLcdDisp.HandOffPopsPrefix` | examples/ultra_lightweight_human_detection/main/simple_gray_lcd_disp.cpp:138-182 | Over any run of the display task the queue loses only a prefix. The current result is the old one or the last entry of that prefix. |
| `GrayLcdDisp.AfterUpdateKeepsAhead` | examples/ultra_lightweight_human_detection/main/simple_gray_lcd_disp.cpp:106-127 | If the queue is in arrival order and holds nothing earlier than the shown result, `update_result` never shows an older result, and both conditions hold again afterwards. |
| `GrayLcdDisp.SaveKeepsAhead` | examples/ultra_lightweight_human_detection/main/simple_gray_lcd_disp.cpp:48-53 | Appending a result that is not earlier than the shown one or the last queued one keeps the queue in order and ahead of the shown result. |
| `GrayLcdDisp.HandOffKeepsAhead` | examples/ultra_lightweight_human_detection/main/simple_gray_lcd_disp.cpp:138-182 | Over any run of the display loop, the time-order invariant is kept and the final shown result is never older than the first. |
| `GrayLcdDisp.BufferSize` | examples/ultra_lightweight_human_detection/main/simple_gray_lcd_disp.cpp:65 | The 32-bit `size_t` product fits in 32 bits. It equals 2·w·h whenever w·h < 2^31. |
| `GrayLcdDisp.PaletteEntry` | examples/ultra_lightweight_human_detection/main/simple_gray_lcd_disp.cpp:31-37 | Each colour becomes two bytes. Their fields are the top 5/6/5 bits of r, g and b, and a missing component counts as 0. |
| `GrayLcdDisp.SimpleGrayLcdDisp.constructor` | examples/ultra_lightweight_human_detection/main/simple_gray_lcd_disp.cpp:19-39 | The converted palette keeps the input's length and order, entry by entry. The queue starts empty with the default result. |
| `GrayLcdDisp.SimpleGrayLcdDisp.SaveDetectResult` | examples/ultra_lightweight_human_detection/main/simple_gray_lcd_disp.cpp:48-53 | The result is appended at the tail and nothing else changes. |
| `GrayLcdDisp.SimpleGrayLcdDisp.CleanupResults` | examples/ultra_lightweight_human_detection/main/simple_gray_lcd_disp.cpp:55-61 | The queue is emptied and the current result reset to the default. |
| `GrayLcdDisp.SimpleGrayLcdDisp.UpdateResult` | examples/ultra_lightweight_human_detection/main/simple_gray_lcd_disp.cpp:106-127 | The popping loop leaves the queue and current result as `AfterUpdate` describes. |
| `GrayLcdDisp.SimpleGrayLcdDisp.EnsureBuffer` | examples/ultra_lightweight_human_detection/main/simple_gray_lcd_disp.cpp:63-69 | The buffer ends with the needed size. It is the same buffer when the size already matched, and otherwise a fresh zeroed one. |
| `GrayLcdDisp.SimpleGrayLcdDisp.ConvertRgb565ToGray` | examples/ultra_lightweight_human_detection/main/simple_gray_lcd_disp.cpp:71-89 | Output pixel i, high byte first, is the grey RGB565 of source pixel i after channel expansion. Bytes from 2·w·h on are untouched. |
| `GrayLcdDisp.SimpleGrayLcdDisp.ConvertRgb888ToGray` | examples/ultra_lightweight_human_detection/main/simple_gray_lcd_disp.cpp:91-104 | Output pixel i, high byte first, is the grey RGB565 of source pixel i. Bytes from 2·w·h on are untouched. |
| `GrayLcdDisp.SimpleGrayLcdDisp.HandleFrame` | examples/ultra_lightweight_human_detection/main/simple_gray_lcd_disp.cpp:154-172 | The grey buffer ends with `ensure_buffer`'s size. When the old buffer already had that size it is kept, and the bytes no conversion writes keep their values. Otherwise a fresh buffer takes its place, and those bytes are zero. For an RGB565 or RGB888 frame, output pixel i, high byte first, is the grey of source pixel i, for every pixel of the frame. This is the image handed to `draw_bitmap`. An unsupported format leaves the results untouched. Any other frame runs `update_result` with the frame's time. |
| `GrayLcdDisp.SimpleGrayLcdDisp.Task` | examples/ultra_lightweight_human_detection/main/simple_gray_lcd_disp.cpp:138-184 | The queue and current result follow `HandOff`: STOP before PAUSE before a frame, and STOP while paused exits. The loop reports stopping exactly when `Stops` says. |
| `InputModeCli.NormChar` | examples/ultra_lightweight_human_detection/main/app_main.cpp:45-49 | Each input character adds at most one character to the buffer. |
| `InputModeCli.Key` | examples/ultra_lightweight_human_detection/main/app_main.cpp:42-51 | The compared text holds at most 31 characters. |
| `InputModeCli.ModeOfKeyMatchesSpellings` | examples/ultra_lightweight_human_detection/main/app_main.cpp:53-68 | The chain picks the mode whose accepted spelling the buffer is, and RGB888 for any other text. No spelling belongs to two modes. |
| `InputModeCli.ParseInputMode` | examples/ultra_lightweight_human_detection/main/app_main.cpp:37-69 | The loop stops at the first NUL. Its mode is that of the first 31 normalised characters before it, and RGB888 for a null argument. |
| `InputModeCli.NulIndex` | examples/ultra_lightweight_human_detection/main/app_main.cpp:44 | The C string ends at a NUL, or at the end of the array when it holds none, and holds no NUL before that point. |
| `InputModeCli.CStringAppend` | examples/ultra_lightweight_human_detection/main/app_main.cpp:44 | The C string of a concatenation is the first part's when that part holds a NUL. Otherwise it is the whole first part followed by the second part's C string. |
| `InputModeCli.NulEndsInput` | examples/ultra_lightweight_human_detection/main/app_main.cpp:44 | Whatever follows a NUL never changes the parsed mode. |
| `InputModeCli.NulHidesRest` | examples/ultra_lightweight_human_detection/main/app_main.cpp:44-59 | "y", NUL, "uv" parses to Y_ONLY, while "yuv" parses to YUV422. |
| `InputModeCli.NormalizeAppend` | examples/ultra_lightweight_human_detection/main/app_main.cpp:44-50 | Normalisation works character by character: normalising a concatenation normalises each part. |
| `InputModeCli.KeyOfStoppedPrefix` | examples/ultra_lightweight_human_detection/main/app_main.cpp:44 | Wherever the loop stops, at the end of the input or with a full buffer, its buffer is the 31-character key of the whole input. |
| `InputModeCli.LaterInputIgnored` | examples/ultra_lightweight_human_detection/main/app_main.cpp:44 | Once 31 normalised characters are read, appending any text does not change the parsed mode. |
| `InputModeCli.DroppedCharacterIgnored` | examples/ultra_lightweight_human_detection/main/app_main.cpp:45-50 | A character other than NUL that is neither alphanumeric nor '_' or '-' can be inserted anywhere without changing the mode. |
| `InputModeCli.NormalizeRespectsEquivalence` | examples/ultra_lightweight_human_detection/main/app_main.cpp:45-48 | Inputs whose characters normalise alike position by position normalise to the same text. |
| `InputModeCli.CaseAndSeparatorInsensitive` | examples/ultra_lightweight_human_detection/main/app_main.cpp:45-48 | Changing letter case or swapping '-' and '_' does not change the parsed mode. |
| `InputModeCli.NormalizeFixesNormalText` | examples/ultra_lightweight_human_detection/main/app_main.cpp:45-48 | Lower-case letters, digits and '_' pass through normalisation unchanged. |
| `InputModeCli.NormalSpellingParses` | examples/ultra_lightweight_human_detection/main/app_main.cpp:53-67 | An accepted spelling typed as listed parses to its mode. |
| `InputModeCli.InputModeToString` | examples/ultra_lightweight_human_detection/main/app_main.cpp:71-87 | Round trip: parsing the returned text gives the same mode back, for all five modes. |
| `InputModeCli.YOnlyCased` | examples/ultra_lightweight_human_detection/main/app_main.cpp:45-59 | Every six-character spelling of "y_only" in any letter case, with '-' or '_' as separator, parses to Y_ONLY. |
| `InputModeCli.YOnlySpaced` | examples/ultra_lightweight_human_detection/main/app_main.cpp:45-59 | "y only" parses to Y_ONLY because the space is dropped. |
| `InputModeCli.SpellingsOfYOnly` | examples/ultra_lightweight_human_detection/main/app_main.cpp:45-59 | "Y-Only", "Y_ONLY" and "y only" all parse to Y_ONLY. |
| `BenchmarkTool.SumBounds` | examples/benchmark_tool/main/app_main.cpp:119-130 | A sum of n samples within [min, max] lies within [min·n, max·n]. |
| `BenchmarkTool.InsertAscending` | examples/benchmark_tool/main/app_main.cpp:133-134 | Inserting into an ascending sequence keeps it ascending and adds exactly the new element. |
| `BenchmarkTool.SortAscending` | examples/benchmark_tool/main/app_main.cpp:133-134 | The sorted copy is ascending and a permutation of the samples. |
| `BenchmarkTool.PercentileIndices` | examples/benchmark_tool/main/app_main.cpp:135-137 | `idx50 ≤ idx90 ≤ last`. They are the floors of last/2 and 9·last/10. |
| `BenchmarkTool.PercentilesBetween` | examples/benchmark_tool/main/app_main.cpp:133-139 | Reads at ordered positions of the sorted copy are ordered and lie between the least and greatest sample. |
| `BenchmarkTool.ComputeStats` | examples/benchmark_tool/main/app_main.cpp:112-142 | Empty samples give all zeros. Otherwise min and max are samples bounding every sample, and sum is the total with min·n ≤ sum ≤ max·n. p50 and p90 are the sorted reads, with min ≤ p50 ≤ p90 ≤ max. |
| `BenchmarkTool.EffectiveShape` | examples/benchmark_tool/main/app_main.cpp:180-182 | The shape used is never empty. |
| `BenchmarkTool.DimProduct` | examples/benchmark_tool/main/app_main.cpp:190-199 | The product of positive dimensions is at least 1. |
| `BenchmarkTool.ElementCount` | examples/benchmark_tool/main/app_main.cpp:190-199 | The loop aborts iff some dimension is ≤ 0. Otherwise the count is the product of the dimensions, which is positive. |
| `BenchmarkTool.DimProductAppend` | examples/benchmark_tool/main/app_main.cpp:190-199 | The element count of a shape is the product of the counts of its two parts, for every split. |
| `BenchmarkTool.UnitDimensionNeutral` | examples/benchmark_tool/main/app_main.cpp:190-199 | Inserting an extent of 1 anywhere in a shape leaves its element count unchanged. |
| `BenchmarkTool.SelectInputBuffer` | examples/benchmark_tool/main/app_main.cpp:206-226 | INT8/UINT8 get an int8 buffer, INT16/UINT16 an int16 buffer and FLOAT a float buffer, each iff that type and each of `count` zeros. Any other type aborts. |
| `BenchmarkTool.PrepareInput` | examples/benchmark_tool/main/app_main.cpp:180-226 | Input is prepared iff every dimension of the effective shape is positive and the dtype is supported. The buffer is then the dtype's zero buffer of the product size. |
| `BenchmarkTool.DefaultShapeCount` | examples/benchmark_tool/main/app_main.cpp:180-182 | The default shape {1, 64, 64, 3} holds 12288 elements. |
| `BenchmarkTool.ModelBlob.constructor` | examples/benchmark_tool/main/app_main.cpp:53-57 | A blob holds the given data, size and ownership. |
| `BenchmarkTool.FreeModelBlob` | examples/benchmark_tool/main/app_main.cpp:94-102 | The buffer is freed iff it is owned and non-null. The blob always ends null, empty and not owned. |

## Left out

- `UhdDetect.UhdLitePostprocessor.ParseMaps`: it adds two early returns that `parse_maps` lacks, so it decodes nothing on some shapes that `parse_maps` decodes.
  - More anchors than the table count: `parse_maps` only warns. It reads past the tables only when an anchor at or beyond the count passes the score gate; otherwise it decodes normally.
  - A quality grid that differs from the box grid: `parse_maps` never checks this. It reads past the quality tensor when H·W·na exceeds that tensor's element count (see Findings). Otherwise every read stays in bounds, but the quality values come from the wrong cells, because the offsets use the box grid's extents. A batch extent above 1 or a reshaped grid, such as quality [4,1,1,1] or [1,1,4,1] against box [1,2,2,4], is such a case.
  - Its other checks, and its behaviour on shapes they accept, follow `parse_maps`.
- `UhdDetect.Candidate`: the score, box fields and corners are values of uninterpreted functions. Nothing numeric about `sigmoid_f`, `softplus_f`, `dl::dequantize`, `DL_SCALE` or the corner formulas is modelled, only the comparisons that steer control flow.
- `UhdDetect.CellScore`: the quality tensor is read with the box head's element type and the quality exponent, as the template instantiation does.
- `UhdDetect.UhdLitePostprocessor.Postprocess`: it requires each tensor's buffer to hold as many elements as its shape says. The inference engine promises this, and `postprocess` does not check it.
- `UhdDetect.UhdLitePostprocessor.Postprocess` also requires every extent to be positive, and `UhdLayout.ParseGuardReadsInBounds` requires a batch extent of at least 1 on both heads. `postprocess` checks neither. Box [0,2,2,4] with quality [0,2,2,1] passes its layout test and loops over 2×2 cells of empty tensors, an out-of-bounds read the model does not represent.
- `UhdDetect.Candidate` lets a NaN score through, as `score < m_score_thr` does. The sortedness results (`BoxList.InsertSorted`, `UhdDetect.DecodePassContents`) assume `greater_box` is a strict weak order. A score comparison is not one once NaN scores occur, so they do not carry over to a float head that yields NaN.
- `nms()`, `get_result()`, `clear_result()` and `greater_box` belong to the esp-dl base class, which is not part of this model. The comparator is any strict weak order, and the post-NMS result is not modelled.
- The constructor takes the model name as a parameter instead of the `UHD_MODEL_NAME` macro. The thresholds and top-K argument are not modelled, except the score threshold.
- `load_model_blob` (both copies), the `UltraLightweightHumanDetect` constructor, destructor and `run()` are left out. They involve linker symbols, aligned allocation, `memcpy` and model construction.
- `GrayLcdDisp.SimpleGrayLcdDisp.Task` runs over a finite sequence of wake-ups instead of waiting forever. The wait while paused consumes the next wake-up. The initial LCD clear, `draw_bitmap`, `draw_detect_results_on_img`, the event-group bits it sets and `vTaskDelete` are not modelled.
- The mutex around the queue is left out. The queue methods are sequential operations of one object.
- `GrayLcdDisp.SimpleGrayLcdDisp.HandleFrame` requires that a frame's pixel count fits an `int` and that its buffer holds all its pixels. The camera guarantees this, and the display task does not check it.
- `GrayLcdDisp.SimpleGrayLcdDisp.ConvertRgb565ToGray`: the luminance `0.299 r + 0.587 g + 0.114 b` is an uninterpreted parameter, as in `ConvertRgb888ToGray`.
- `read_input_mode_from_uart` is UART I/O and is left out. So are the wiring of tasks in `app_main`, the camera pipeline, and the benchmark's warm-up and timing loop with `esp_timer`.
- `InputModeCli.ParseInputMode`: the argument is a finite character array. A C string with no NUL in it is read to its end, which stands for the terminator. `isalnum`/`tolower` follow the C locale, and characters outside ASCII are neither letters nor digits.
- `InputModeCli.InputModeToString`: the `default` branch of the switch cannot be reached by any of the five enumerators and is not modelled.
- `BenchmarkTool.ComputeStats`: `avg_us` is a floating-point quotient and is left out (the integer sum it divides is returned). Signed 64-bit overflow of the sum is not modelled.
- `BenchmarkTool.PercentileIndices`: `static_cast<size_t>(0.50 * last)` and `(0.90 * last)` are modelled as the exact floors `last/2` and `9*last/10`. Double rounding of 0.9·last is not modelled.
- `BenchmarkTool.ElementCount`: the `size_t` product is unbounded; wrap-around on huge shapes is not modelled.
- `DlTypes.TruncToInt` is plain truncation toward zero on every finite value. In C++, `(int)x1` on a corner outside the `int` range is undefined behaviour, and the model does not represent that case. `UhdDetect.Candidate`'s ordered corners and `UhdDetect.TruncMonotone` therefore hold only for corners that fit an `int`.
- Integer widths elsewhere (`int` grid extents, `size_t` offsets) are unbounded. The one product that wraps on the 32-bit target, `ensure_buffer`'s byte count, is modelled modulo 2^32 in `GrayLcdDisp.BufferSize`.
- The model's own anchor count is not required to equal the table count. `parse_maps` only warns on a mismatch, and a model with fewer anchors decodes normally.

## Findings

| source | as written | input that shows it | evidently intended | confidence | as-written member | corrected member |
|---|---|---|---|---|---|---|
| examples/ultra_lightweight_human_detection/components/uhd_detect/uhd_detect.cpp:158-168 | H and W come from the box head only, and the quality head's spatial extents are never compared with them. Quality offsets reach H·W·na − 1 regardless of the quality tensor's size. | Box shape [1,2,2,4] and quality shape [1,1,1,1] (NHWC, one anchor): the cell (1,1) reads quality element 3 of a one-element tensor. | Decode only when the quality grid equals the box grid. | not executed | `UhdLayout.QualityReadEscapesAsWritten` (guard `UhdLayout.ParseGuardAsWritten`) | `UhdLayout.ParseGuardReadsInBounds` (guard `UhdLayout.ParseGuard`, which `UhdDetect.DecodeGuardCompletesParseGuard` ties to the checks of `UhdDetect.UhdLitePostprocessor.ParseMaps`) |
| examples/ultra_lightweight_human_detection/components/uhd_detect/uhd_detect.cpp:166-168 | A model anchor count different from the table's count only logs a warning. The loop then reads `anchors[2a+1]` and `wh_scale[2a+1]` for every a < na whose score passes the gate at line 193. | Box shape [1,1,1,36] and quality shape [1,1,1,9] with the 8-anchor W32 or W40 tables: once its score passes the gate, anchor 8 reads entry 17 of 16-entry tables. | Skip decoding when the model has more anchors than the table holds. | not executed | `UhdLayout.AnchorReadEscapesAsWritten` (guard `UhdLayout.ParseGuardAsWritten`) | `UhdLayout.ParseGuardReadsInBounds` (guard `UhdLayout.ParseGuard`, which `UhdDetect.DecodeGuardCompletesParseGuard` ties to the checks of `UhdDetect.UhdLitePostprocessor.ParseMaps`) |
