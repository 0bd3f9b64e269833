# Video grid and concatenation planning, in Dafny

This project models the planning logic of a set of Python scripts that drive
ffmpeg. The scripts do two things:

- tile many short clips into one grid video
  (`video_grid_generator.py`, `video_grid_generator_advanced.py`,
  `video_grid_generator_v2_advanced.py`, and the stand-alone
  `calculate_grid.py`);
- play clips one after another, scaled and padded onto a fixed canvas
  (`video_concatenator.py`, `video_concatenator_advanced.py`).

The model covers what the scripts decide before the transcoder runs. It does
not model the transcoder itself.

- **`GridLayout`: the layout search.** For each row count from 1 to 19 (1 to 14
  in the stand-alone script), the search takes `cols = ceil(n / rows)` and
  keeps the grid whose `cols / rows` is closest to `W / H`. Cells are
  `W // cols` by `H // rows`. The search compares floats; the model compares
  the exact rational gaps by cross-multiplying, and proves this agrees with
  the real-number comparison. Where two exact gaps tie, the model keeps the
  first row count. The scripts' doubles can break such a tie the other way,
  as they do for 121 clips on 1920x1080 (see "Left out"). Python's exceptions become `Failure` results:
  `ZeroDivisionError` when there are no clips or `H` is 0, or when a forced
  dimension is 0.
- **`CropGeometry`: the square crop.** The crop side is the shorter frame
  edge. The horizontal offset is centred. The vertical offset is 0 for `top`,
  at the bottom edge for `bottom`, and centred for `center` and for any other
  mode string.
- **`Selection`: the balanced selection of the v2 generator.**
  1. Flatten the task groups in discovery order.
  2. Cap the result at `max_videos` when that is truthy.
  3. Top it up with `random.choices` repeats until every cell has a clip.
  4. Shuffle it when asked.
  5. Keep `rows * cols` clips.

  Randomness comes in as oracle sequences. `draws` gives the pool index of
  each repeat. `swaps` gives, for each position `i` from the end, the index
  `j <= i` that CPython's `random.shuffle` swaps it with. Every oracle
  sequence of the right shape is a possible run.
- **`FilterGraph`: the `-filter_complex` graph.** The graph has:
  - one crop-and-scale chain per used clip (`[v{i}]`);
  - row by row, a black `color` source for every cell no clip fills
    (`[black{idx}]`);
  - an `hstack` per row when there is more than one column (`[row{r}]`);
  - a `vstack` when there is more than one row (`[final]`).

  Filters are data. `Eval` gives the picture a label stands for. The main
  theorem is that the label passed to `-map` shows the intended row-major
  mosaic: clip `i` at row `i / cols`, column `i % cols`, and black after the
  last clip.
- **`GridPlans`: the three grid generators end to end.** Each plan returns the
  ordered `-i` inputs, the layout, the filter graph and the output length, or
  the failure the script ends in.
- **`Concat`: the two concatenators.**
  - The concat-demuxer list file: one `file '<path>'` line per clip, with
    `'` written as `'\''`. For every list of paths that are sequences of
    Unicode characters, a tokenizer that reads the list text back recovers
    exactly those paths. The text is not encoded to bytes in the model.
  - The integer tail of the scale-and-pad maths: round the size down to even,
    then centre it on the canvas.
  - The two plans: the advanced script caps the list, may shuffle it and
    refuses an empty list; the basic script always shuffles and returns
    early on an empty list.

Behaviours of the code worth knowing:

- For 80 clips on a 1920x1080 canvas, the stand-alone search picks 7 rows of
  12 columns with 160x154 cells (`ScriptRecommendsSevenByTwelve`).
- An unrecognised crop mode behaves exactly like `center`.
- The v2 generator sizes its grid from the number of discovered clips before
  the `max_videos` cap. A small cap therefore gives a large grid filled by
  repeats of the capped clips.
- With an empty pool and cells to fill, the v2 selection fails inside
  `random.choices`, which indexes an empty list.

## Model

All paths below are relative to the repository root.

| member | source | states |
|---|---|---|
| GridLayout.CeilDiv | video_grid_generator_v2_advanced.py:49-50 | `cols = ceil(n/rows)` is the least column count with `rows*cols >= n`, so the `rows*cols >= n` guard always holds |
| GridLayout.CloserIsRatioOrder | video_grid_generator_v2_advanced.py:51-57 | the cross-multiplied integer comparison holds exactly when `abs(cols/rows - W/H)` is strictly smaller, computed over the reals |
| GridLayout.CellSize | video_grid_generator_v2_advanced.py:54-55 | `W // cols` is the largest cell width whose `cols` copies fit in `W`, and likewise for heights |
| GridLayout.BestRows | video_grid_generator_v2_advanced.py:48-59 | the row count the loop ends with, comparing exact rational gaps: no candidate in range has a strictly smaller exact gap to `W/H`, and every smaller row count has a strictly larger one (exact ties keep the first) |
| GridLayout.FirstBestUnique | video_grid_generator_v2_advanced.py:57-59 | the strict `<` makes the winner unique: two first-best row counts are equal |
| GridLayout.SearchLayout | video_grid_generator_v2_advanced.py:42-61 | fails with a division by zero exactly when there are no clips or `H == 0`; otherwise rows is the first best by exact gap, `cols == ceil(n/rows) >= 1`, the grid holds all clips without a spare row of columns, and cells are the floor sizes |
| GridLayout.ExactTieKeepsEightRows | video_grid_generator_v2_advanced.py:48-59 | for 121 clips on 1920x1080, 8 rows of 16 and 9 rows of 14 have the same exact gap `2/9`, and the exact search returns 8x16 with 120x135 cells |
| GridLayout.FloatsBreakTheTie | video_grid_generator_v2_advanced.py:44-57 | the doubles nearest `1920/1080` and `14/9` make the script's difference for 9 rows smaller than for 8 rows, so the float search keeps 9 rows of 14 |
| GridLayout.OptimalGrid | video_grid_generator_v2_advanced.py:42-61 | for at least one clip and `H != 0`, the result has `1 <= rows <= 19`, `rows*cols >= n`, and rows is the first minimiser of the exact rational ratio gap (`video_grid_generator_advanced.py` and `video_grid_generator.py` have identical copies) |
| GridLayout.ForcedLayout | video_grid_generator_v2_advanced.py:166-169 | an override is usable exactly when both dimensions are positive; a zero dimension fails with a division by zero; cells are the floor sizes |
| GridLayout.ChooseLayout | video_grid_generator_v2_advanced.py:166-171 | a successful layout has at least one row and column, and without an override it holds every clip |
| GridLayout.ScriptRecommendsSevenByTwelve | calculate_grid.py:4-29 | for 80 clips, 1920x1080, rows 1..14, the script's best layout is 7x12 with 160x154 cells |
| CropGeometry.Crop | video_grid_generator_v2_advanced.py:73-86 | side is the shorter edge; the window fits in the frame; x is centred (rounding down); `top` gives y 0, `bottom` gives y `h - size`, anything else centres y (inlined identically in `video_grid_generator_advanced.py`) |
| CropGeometry.UnknownModeIsCenter | video_grid_generator_v2_advanced.py:75-86 | any mode other than `center`, `top` and `bottom` gives the `center` window |
| CropGeometry.CenterCrop | video_grid_generator.py:111-113 | the basic generator's crop is the `center` window and fits in the frame |
| CropGeometry.CenterCropOfFullHd | video_grid_generator_v2_advanced.py:73-77 | 1920x1080 centred gives a 1080 square at (420, 0) |
| Selection.Flatten | video_grid_generator_v2_advanced.py:103-106 | the flattened pool has one entry per discovered clip |
| Selection.FlattenMembers | video_grid_generator_v2_advanced.py:103-106 | a tagged clip is in the pool exactly when some group lists that clip under that task name |
| Selection.FlattenAppend | video_grid_generator_v2_advanced.py:104-106 | groups are flattened in order: the pool of two runs of groups is the two pools concatenated |
| Selection.Cap | video_grid_generator_v2_advanced.py:109-110 | the capped list is a prefix; `None` and `0` keep everything; a positive cap keeps `min(k, len)`; a negative cap drops the last `-k` like Python's slice (`video_grid_generator_advanced.py` and `video_concatenator_advanced.py` cap the same way) |
| Selection.CapKeepsDiscoveryPrefix | video_grid_generator_v2_advanced.py:109-110 | a positive cap keeps exactly the first `k` clips in group-then-file order |
| Selection.Shuffle | video_grid_generator_v2_advanced.py:123-124 | any run of `random.shuffle` keeps the length and the multiset of clips |
| Selection.ShuffleWithoutMoves | video_grid_generator_v2_advanced.py:123-124 | the shuffle run that swaps every position with itself leaves the list unchanged |
| Selection.Choices | video_grid_generator_v2_advanced.py:116-120 | every repeat `random.choices` draws is a pool clip, one per missing slot; on an empty pool with slots to fill, the indexing raises `IndexError` |
| Selection.Extended | video_grid_generator_v2_advanced.py:116-120 | topping up fails with `IndexError` exactly when the pool is empty and there are slots; otherwise the pool comes first, the list has `max(len(pool), slots)` entries, and every entry is a pool clip |
| Selection.MaybeShuffle | video_grid_generator_advanced.py:90-92 | the optional shuffle keeps the multiset, and without the flag leaves the order unchanged |
| Selection.Arrange | video_grid_generator_v2_advanced.py:116-128 | fails with `IndexError` exactly when the pool is empty and there are slots; otherwise exactly `slots` entries, all from the pool; for a pool no larger than the grid, a permutation of pool plus repeats; without shuffle, pool followed by repeats, cut to `slots` |
| Selection.BalancedSelection | video_grid_generator_v2_advanced.py:97-139 | succeeds exactly when the capped pool is non-empty or there are no cells, and fails with `IndexError` otherwise; on success returns `rows*cols` clips, each from the capped pool |
| Selection.EveryPooledClipIsPlaced | video_grid_generator_v2_advanced.py:116-128 | when the pool fits the grid, arranging succeeds and every pooled clip gets a slot, shuffled or not |
| Selection.UnshuffledOrder | video_grid_generator_v2_advanced.py:116-128 | without shuffle, a non-empty pool that fits gives the pool in discovery order followed by the drawn repeats |
| FilterGraph.Fillers | video_grid_generator_v2_advanced.py:218-224 | a row emits one black source per cell at or past the number of used clips, labelled with that cell's index, and no other |
| FilterGraph.ScopedAppend | video_grid_generator_v2_advanced.py:206-240 | appending filters that only read labels already defined keeps the filter list well scoped |
| FilterGraph.RowsScoped | video_grid_generator_v2_advanced.py:215-232 | after the clip chains and `k` row blocks, labels are unique, each is defined before use, and exactly the clips, the black cells before cell `k*cols` and the first `k` row stacks are defined |
| FilterGraph.Compile | video_grid_generator_v2_advanced.py:206-240 | the graph is well scoped, its output label is defined, and that label shows the row-major mosaic of the used clips with black after the last one (the advanced and basic generators assemble the graph identically) |
| FilterGraph.CompileLabels | video_grid_generator_advanced.py:157-183 | a `black{idx}` source exists exactly for used <= idx < rows*cols; `row{r}` exactly when cols > 1 and r < rows; `[final]` exists and is the output exactly when rows > 1 |
| FilterGraph.CompileClipsFirst | video_grid_generator_advanced.py:151-154 | the first filters are the crop chains, chain `i` reading input `i` into `[v{i}]` |
| FilterGraph.CompileSize | video_grid_generator_advanced.py:151-183 | node count is used + max(0, rows*cols - used) + (rows if cols > 1) + (1 if rows > 1) |
| FilterGraph.CompileFillersUniform | video_grid_generator.py:153 | every black source has the cell size and the output duration |
| FilterGraph.PrefixShown | video_grid_generator_v2_advanced.py:216-232 | after `k` rows, every clip and visited cell shows its mosaic cell and every row label shows its mosaic row |
| FilterGraph.StackShown | video_grid_generator_v2_advanced.py:227-229 | a row's `hstack` shows the row's cells left to right |
| FilterGraph.EvalExtend | video_grid_generator_v2_advanced.py:206-240 | filters appended after a label's definition do not change what it shows |
| GridPlans.PlanV2 | video_grid_generator_v2_advanced.py:154-240 | no task groups fails early; otherwise layout failures propagate, an empty capped pool fails with `IndexError`, and success gives the chosen layout and `rows*cols` inputs, all from the capped pool |
| GridPlans.FullGridShowsInputs | video_grid_generator_v2_advanced.py:216-221 | when every cell has a clip, cell (r, c) shows input `r*cols + c` |
| GridPlans.V2FillsEveryCell | video_grid_generator_v2_advanced.py:182-240 | the v2 output shows the full mosaic, generates no black filler, and crops each input by its own probed window |
| GridPlans.V2LayoutIsSearched | video_grid_generator_v2_advanced.py:159-171 | without an override, the v2 grid is the first best by exact gap over rows 1..19 for the uncapped clip count and holds them all |
| GridPlans.PlanAdvanced | video_grid_generator_advanced.py:80-143 | no files fails early; success exactly when the layout succeeds for the capped list and that list is non-empty; inputs are the first `min(rows*cols, n)` clips of the capped, possibly shuffled list, a prefix of the discovery order when not shuffled |
| GridPlans.AdvancedShowsInputs | video_grid_generator_advanced.py:110-183 | the output shows the inputs in row-major order; black sources exactly for the cells past the inputs; every chain uses the first clip's window |
| GridPlans.AdvancedKeepsEveryClip | video_grid_generator_advanced.py:95-143 | without an override, every capped clip is an input |
| GridPlans.PlanBasic | video_grid_generator.py:79-128 | no files fails early; success exactly when the layout succeeds; the output length is 30 seconds when none is given and the given one otherwise; inputs are the first `min(rows*cols, n)` clips of the possibly shuffled list |
| GridPlans.BasicShowsInputs | video_grid_generator.py:101-170 | the output shows the inputs in row-major order, each cropped around the centre of the first clip; every black source lasts the output length, 30 seconds when none is given |
| Concat.Escape | video_concatenator_advanced.py:38 | each `'` grows by three characters and a quote-free path is unchanged |
| Concat.ReadEscaped | video_concatenator_advanced.py:38-39 | reading an escaped path inside its quotes, up to the closing quote and newline, gives back the path |
| Concat.LineRoundTrip | video_concatenator_advanced.py:39 | a `file '...'` line is read back as its path, followed by whatever the rest of the text holds |
| Concat.ListText | video_concatenator_advanced.py:33-40 | the list file, read back, names exactly the clips in order, whatever characters the paths contain (`video_concatenator.py` writes the same list) |
| Concat.PlainPathLine | video_concatenator_advanced.py:38-39 | a quote-free path is written between the quotes unchanged |
| Concat.EvenFloor | video_concatenator_advanced.py:100-101 | the size becomes even, at most one less than before (`video_concatenator.py` rounds the same way) |
| Concat.EvenFloorIsLargest | video_concatenator_advanced.py:100-101 | no even number between the rounded size and the input is skipped |
| Concat.CentreOffset | video_concatenator_advanced.py:104-105 | the offset halves the slack, rounding down; a size within the canvas stays within it at a non-negative offset (`video_concatenator.py` centres the same way) |
| Concat.FitFrame | video_concatenator_advanced.py:100-105 | even sizes within one pixel of the scaled size, centred on the canvas, inside it when the scaled size fits |
| Concat.PlanOf | video_concatenator_advanced.py:82-116 | the plan reads the first clip, so it needs one (`IndexError` otherwise), and its list file names the clips in play order |
| Concat.PlanConcatAdvanced | video_concatenator_advanced.py:67-116 | no files returns early; success exactly when the capped list is non-empty; the play order is a permutation of the capped list, equal to it without shuffle; the list file names it |
| Concat.PlanConcatBasic | video_concatenator.py:61-101 | no files returns early; otherwise the play order is a permutation of all clips and the list file names it |
| Concat.CappedConcatUsesDiscoveryPrefix | video_concatenator_advanced.py:72-78 | a positive cap plays exactly the first `k` discovered clips, in some order |

## Left out

- Running ffprobe and ffmpeg: the probe result is the parameter
  `probe: Path -> Dims` (and `fit` for the concatenators). Encoding flags,
  `-stream_loop`, exit status and the output file are left out.
- `os.walk` discovery and the folder-name task grouping: the discovered
  files and task groups are inputs, in discovery order.
- `eval(r_frame_rate)` and the `-r` frame rate: arbitrary code evaluation
  and floats.
- The float `scale_ratio` and the `int(...)` truncation of the scaled size
  in the concatenators: the truncated sizes are inputs (`fit`), so the
  results for non-integral ratios are not derived.
- GridLayout.SearchLayout: compares the ratio gaps exactly, as rationals.
  The scripts compare rounded doubles. Where two exact gaps are equal, the
  rounding can make the later row count win, and the model then keeps the
  earlier one.
- GridLayout.BestRows: an exact tie keeps the first row count, but the
  scripts' doubles can break it the other way. For 121 to 126 clips on
  1920x1080, 8 rows of 16 and 9 rows of 14 are both `2/9` from `16/9`. The
  scripts pick 9x14 with 137x120 cells; the model picks 8x16 with 120x135
  cells (`GridLayout.ExactTieKeepsEightRows`, `GridLayout.FloatsBreakTheTie`).
- GridLayout.OptimalGrid: the first minimiser of the exact gap, so for 121
  to 126 clips on 1920x1080 it returns 8x16 where the three grid scripts
  return 9x14.
- GridPlans.V2LayoutIsSearched: inherits the exact-tie reading of
  `GridLayout.OptimalGrid`; for 121 to 126 clips on 1920x1080 the v2 script
  lays out 9x14, not the model's 8x16.
- Argument parsing, prints, the task-distribution report, temporary
  directories and file-size reporting.
- The distribution of `random`: draws and swaps are oracle inputs, so every
  property holds for every possible run. Nothing is said about how likely
  any run is.
- The oracle preconditions (`SwapsFit`, `DrawsFit`, `V2Oracles`) say only
  that the random draws have the shape `random` produces for lists of that
  length. They exclude no clip list, layout or option the scripts accept.
- The early exit on an empty discovery returns `False` in some scripts and
  `None` in `video_concatenator.py`. Both are the one failure
  `NoSourceFiles`.
- The text of the filter strings. Labels and filters are datatypes, and
  `Eval` interprets `hstack` and `vstack` as picture layout. Pixel sizes,
  scaling and durations are carried as node fields, not rendered.
- Concat.ParseList: it reads a newline inside quotes as part of the path.
  ffmpeg's concat demuxer reads the file line by line, and ends a line at a
  carriage return or a NUL as well as at a newline. So a path containing any
  of these cannot round-trip through ffmpeg, although `Concat.ListText`'s
  round trip through `ParseList` holds for it.
- Concat.ListText: the list file is written in the locale encoding with
  strict errors. A name that `os.walk` decoded with surrogate escapes makes
  `f.write` raise `UnicodeEncodeError`. Such names are not Dafny strings, so
  the model has no such failure.
- GridLayout.ForcedLayout: a negative override dimension is reported as the
  `IndexError` the script ends in. In the script that error comes later,
  when the empty row loop is indexed, not when the cells are sized.
- GridPlans.PlanV2 and GridPlans.PlanAdvanced: the per-clip progress
  listing and the fps fallback are not modelled.
