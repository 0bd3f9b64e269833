/** The three grid generators, from the discovered clips to the filter graph
    handed to the transcoder. Probing a clip's frame size is the parameter
    `probe`, and the random draws are the oracle sequences of `Selection`.

    - `PlanV2` (`create_video_grid_v2_advanced`): clips grouped by task, a
      balanced selection that fills every cell, and a crop per clip.
    - `PlanAdvanced` (`create_video_grid_advanced`): a flat list, an
      optional cap and shuffle, and one crop taken from the first clip.
    - `PlanBasic` (`create_video_grid`): a flat list, an optional shuffle,
      and a centred crop taken from the first clip. */
module GridPlans {
  import opened Basics
  import opened GridLayout
  import opened CropGeometry
  import opened Selection
  import opened FilterGraph

  /** The output length, in seconds, when none is given. */
  const DefaultDuration := 30

  /** What a run hands to the transcoder: the inputs in order (input `i` is
      stream `i` of the graph), the grid, the filter graph and the output
      length. */
  datatype Plan = Plan(inputs: seq<Path>, layout: Layout, graph: Graph, duration: int)

  /** The crop window of each selected clip, probed one by one. */
  function Windows(videos: seq<Path>, probe: Path -> Dims, mode: string): (ws: seq<Window>)
  {
    seq(|videos|, i requires 0 <= i < |videos| => Crop(probe(videos[i]).width, probe(videos[i]).height, mode))
  }

  /** One window shared by every used clip. */
  function SameWindow(n: nat, win: Window): (ws: seq<Window>)
  {
    seq(n, _ => win)
  }

  /** The plan showing `used` in a grid laid out by `layout`, input `i`
      cropped by `windows[i]`. */
  function PlanFor(used: seq<Path>, windows: seq<Window>, layout: Layout, duration: int): (p: Plan)
    requires layout.rows >= 1 && layout.cols >= 1
  {
    Plan(used, layout, Compile(windows, layout.rows, layout.cols, layout.cellWidth, layout.cellHeight, duration), duration)
  }

  /** The plan for the flat-list generators: the first `rows * cols` clips of
      `order`, all cropped by `win`. */
  function SharedCropPlan(order: seq<Path>, layout: Layout, win: Window, duration: int): (p: Plan)
    requires layout.rows >= 1 && layout.cols >= 1
  {
    var used := PyPrefix(order, layout.rows * layout.cols);
    PlanFor(used, SameWindow(|used|, win), layout, duration)
  }

  /** The first `k` clips of the capped, possibly shuffled list: there are
      `min(k, n)` of them, and without shuffle they are a prefix of the
      discovery order. */
  lemma OrderPrefix(files: seq<Path>, maxVideos: Option<int>, shuffle: bool, swaps: seq<nat>, k: nat)
    requires shuffle ==> SwapsFit(|Cap(files, maxVideos)|, swaps)
    ensures |PyPrefix(MaybeShuffle(Cap(files, maxVideos), shuffle, swaps), k)| == Min(k, |Cap(files, maxVideos)|)
    ensures !shuffle ==> PyPrefix(MaybeShuffle(Cap(files, maxVideos), shuffle, swaps), k) <= files
  {
  }

  /** The random draws suit a balanced selection of `slots` clips. */
  predicate SelectionOracles(groups: seq<TaskGroup>, slots: nat, maxVideos: Option<int>, shuffle: bool,
                             draws: seq<nat>, swaps: seq<nat>)
  {
    var n := |Pool(groups, maxVideos)|;
    DrawsFit(n, slots, draws) && (shuffle ==> SwapsFit(n + Shortfall(n, slots), swaps))
  }

  /** The random draws suit the selection the grid chosen for `groups` asks for. */
  predicate V2Oracles(groups: seq<TaskGroup>, w: int, h: int, forced: Option<(int, int)>,
                      maxVideos: Option<int>, shuffle: bool, draws: seq<nat>, swaps: seq<nat>)
  {
    var layout := ChooseLayout(forced, TotalVideos(groups), w, h);
    layout.Success? ==> SelectionOracles(groups, layout.value.rows * layout.value.cols, maxVideos, shuffle, draws, swaps)
  }

  /** The grid is sized for every discovered clip, before the cap; the
      balanced selection then fills all its cells. */
  function PlanV2(groups: seq<TaskGroup>, w: int, h: int, duration: int, forced: Option<(int, int)>,
                  maxVideos: Option<int>, shuffle: bool, mode: string, probe: Path -> Dims,
                  draws: seq<nat>, swaps: seq<nat>): (res: Result<Plan>)
    requires V2Oracles(groups, w, h, forced, maxVideos, shuffle, draws, swaps)
    ensures res.Success? <==>
      |groups| > 0 && ChooseLayout(forced, TotalVideos(groups), w, h).Success? && |Pool(groups, maxVideos)| > 0
    ensures |groups| == 0 ==> res == Failure(NoSourceFiles)
    ensures |groups| > 0 && ChooseLayout(forced, TotalVideos(groups), w, h).Failure? ==>
      res == Failure(ChooseLayout(forced, TotalVideos(groups), w, h).fault)
    ensures |groups| > 0 && ChooseLayout(forced, TotalVideos(groups), w, h).Success? && |Pool(groups, maxVideos)| == 0 ==>
      res == Failure(IndexError)
    ensures res.Success? ==> res.value.layout == ChooseLayout(forced, TotalVideos(groups), w, h).value
    ensures res.Success? ==> |res.value.inputs| == res.value.layout.rows * res.value.layout.cols
    ensures res.Success? ==> forall v :: v in res.value.inputs ==> v in Videos(Pool(groups, maxVideos))
  {
    if |groups| == 0 then Failure(NoSourceFiles)
    else
      match ChooseLayout(forced, TotalVideos(groups), w, h)
      case Failure(f) => Failure(f)
      case Success(layout) =>
        match BalancedSelection(groups, layout.rows * layout.cols, maxVideos, shuffle, draws, swaps)
        case Failure(f) => Failure(f)
        case Success(videos) =>
          Success(PlanFor(videos, Windows(videos, probe, mode), layout, duration))
  }

  /** A full grid has no black cell: cell `(r, c)` shows input `r * cols + c`. */
  lemma FullGridShowsInputs(rows: nat, cols: nat)
    ensures forall r, c :: 0 <= r < rows && 0 <= c < cols ==> Mosaic(rows, cols, rows * cols)[r][c] == Shows(r * cols + c)
  {
    forall r, c | 0 <= r < rows && 0 <= c < cols
      ensures Mosaic(rows, cols, rows * cols)[r][c] == Shows(r * cols + c)
    {
      MulWeak(r + 1, rows, cols);
      assert r * cols + c < rows * cols;
      assert Mosaic(rows, cols, rows * cols)[r] == RowContent(r, cols, rows * cols);
      assert RowContent(r, cols, rows * cols)[c] == CellAt(r * cols + c, rows * cols);
    }
  }

  /** Every cell of a V2 grid shows a selected clip cropped by its own window,
      and no black filler is generated. */
  lemma V2FillsEveryCell(groups: seq<TaskGroup>, w: int, h: int, duration: int, forced: Option<(int, int)>,
                         maxVideos: Option<int>, shuffle: bool, mode: string, probe: Path -> Dims,
                         draws: seq<nat>, swaps: seq<nat>)
    requires V2Oracles(groups, w, h, forced, maxVideos, shuffle, draws, swaps)
    ensures var res := PlanV2(groups, w, h, duration, forced, maxVideos, shuffle, mode, probe, draws, swaps);
      res.Success? ==>
      var p := res.value;
      && Eval(p.graph.nodes, p.graph.output) == Some(Mosaic(p.layout.rows, p.layout.cols, p.layout.rows * p.layout.cols))
      && (forall i: nat :: Black(i) !in Labels(p.graph.nodes))
      && (forall i :: 0 <= i < |p.inputs| ==>
            p.graph.nodes[i] == CropScale(i, Crop(probe(p.inputs[i]).width, probe(p.inputs[i]).height, mode),
                                          p.layout.cellWidth, p.layout.cellHeight, Clip(i)))
  {
    var res := PlanV2(groups, w, h, duration, forced, maxVideos, shuffle, mode, probe, draws, swaps);
    if res.Success? {
      var p := res.value;
      var l := p.layout;
      var ws := Windows(p.inputs, probe, mode);
      CompileLabels(ws, l.rows, l.cols, l.cellWidth, l.cellHeight, duration);
      CompileClipsFirst(ws, l.rows, l.cols, l.cellWidth, l.cellHeight, duration);
    }
  }

  /** Without an override, the V2 grid is the first closest to the canvas
      ratio among rows 1..19 for every discovered clip. */
  lemma V2LayoutIsSearched(groups: seq<TaskGroup>, w: int, h: int, duration: int,
                           maxVideos: Option<int>, shuffle: bool, mode: string, probe: Path -> Dims,
                           draws: seq<nat>, swaps: seq<nat>)
    requires V2Oracles(groups, w, h, None, maxVideos, shuffle, draws, swaps)
    ensures var res := PlanV2(groups, w, h, duration, None, maxVideos, shuffle, mode, probe, draws, swaps);
      res.Success? ==>
      && IsFirstBest(TotalVideos(groups), w, h, MaxRows, res.value.layout.rows)
      && res.value.layout.rows * res.value.layout.cols >= TotalVideos(groups)
  {
  }

  /** Cap the discovered list, shuffle it when asked, lay the grid out for
      what is left, crop every clip like the first one, and keep as many
      clips as there are cells. */
  function PlanAdvanced(files: seq<Path>, w: int, h: int, duration: int, shuffle: bool,
                        forced: Option<(int, int)>, maxVideos: Option<int>, mode: string,
                        probe: Path -> Dims, swaps: seq<nat>): (res: Result<Plan>)
    requires shuffle ==> SwapsFit(|Cap(files, maxVideos)|, swaps)
    ensures |files| == 0 <==> res == Failure(NoSourceFiles)
    ensures res.Success? <==>
      && |files| > 0
      && ChooseLayout(forced, |Cap(files, maxVideos)|, w, h).Success?
      && |Cap(files, maxVideos)| > 0
    ensures res.Failure? && |files| > 0 && ChooseLayout(forced, |Cap(files, maxVideos)|, w, h).Failure? ==>
      res.fault == ChooseLayout(forced, |Cap(files, maxVideos)|, w, h).fault
    ensures res.Failure? && |files| > 0 && ChooseLayout(forced, |Cap(files, maxVideos)|, w, h).Success? ==>
      res.fault == IndexError
    ensures res.Success? ==> res.value.layout == ChooseLayout(forced, |Cap(files, maxVideos)|, w, h).value
    ensures res.Success? ==>
      |res.value.inputs| == Min(res.value.layout.rows * res.value.layout.cols, |Cap(files, maxVideos)|)
    ensures res.Success? ==> res.value.inputs <= MaybeShuffle(Cap(files, maxVideos), shuffle, swaps)
    ensures res.Success? && !shuffle ==> res.value.inputs <= files
  {
    if |files| == 0 then Failure(NoSourceFiles)
    else
      var order := MaybeShuffle(Cap(files, maxVideos), shuffle, swaps);
      match ChooseLayout(forced, |order|, w, h)
      case Failure(f) => Failure(f)
      case Success(layout) =>
        if |order| == 0 then Failure(IndexError)
        else
          var first := probe(order[0]);
          OrderPrefix(files, maxVideos, shuffle, swaps, layout.rows * layout.cols);
          Success(SharedCropPlan(order, layout, Crop(first.width, first.height, mode), duration))
  }

  /** The advanced grid shows its inputs in row-major order, pads the cells
      past the last one with black, and crops every input by the first clip's
      window. */
  lemma AdvancedShowsInputs(files: seq<Path>, w: int, h: int, duration: int, shuffle: bool,
                            forced: Option<(int, int)>, maxVideos: Option<int>, mode: string,
                            probe: Path -> Dims, swaps: seq<nat>)
    requires shuffle ==> SwapsFit(|Cap(files, maxVideos)|, swaps)
    ensures var res := PlanAdvanced(files, w, h, duration, shuffle, forced, maxVideos, mode, probe, swaps);
      res.Success? ==>
      var p := res.value;
      var first := probe(MaybeShuffle(Cap(files, maxVideos), shuffle, swaps)[0]);
      && Eval(p.graph.nodes, p.graph.output) == Some(Mosaic(p.layout.rows, p.layout.cols, |p.inputs|))
      && (forall i: nat :: Black(i) in Labels(p.graph.nodes) <==> |p.inputs| <= i < p.layout.rows * p.layout.cols)
      && (forall i :: 0 <= i < |p.inputs| ==>
            p.graph.nodes[i] == CropScale(i, Crop(first.width, first.height, mode), p.layout.cellWidth, p.layout.cellHeight, Clip(i)))
  {
    var res := PlanAdvanced(files, w, h, duration, shuffle, forced, maxVideos, mode, probe, swaps);
    if res.Success? {
      var p := res.value;
      var l := p.layout;
      var first := probe(MaybeShuffle(Cap(files, maxVideos), shuffle, swaps)[0]);
      var ws := SameWindow(|p.inputs|, Crop(first.width, first.height, mode));
      CompileLabels(ws, l.rows, l.cols, l.cellWidth, l.cellHeight, duration);
      CompileClipsFirst(ws, l.rows, l.cols, l.cellWidth, l.cellHeight, duration);
    }
  }

  /** Without an override the searched grid has a cell for every capped clip,
      so none is dropped. */
  lemma AdvancedKeepsEveryClip(files: seq<Path>, w: int, h: int, duration: int, shuffle: bool,
                               maxVideos: Option<int>, mode: string, probe: Path -> Dims, swaps: seq<nat>)
    requires shuffle ==> SwapsFit(|Cap(files, maxVideos)|, swaps)
    ensures var res := PlanAdvanced(files, w, h, duration, shuffle, None, maxVideos, mode, probe, swaps);
      res.Success? ==> res.value.inputs == MaybeShuffle(Cap(files, maxVideos), shuffle, swaps)
  {
  }

  /** The basic generator's output length: 30 seconds unless one is given. */
  function BasicDuration(duration: Option<int>): (d: int)
  {
    match duration
    case None => DefaultDuration
    case Some(d) => d
  }

  /** Shuffle the discovered list when asked, lay the grid out for it, crop
      every clip around the centre of the first one, and keep as many clips
      as there are cells. */
  function PlanBasic(files: seq<Path>, w: int, h: int, duration: Option<int>, shuffle: bool,
                     forced: Option<(int, int)>, probe: Path -> Dims, swaps: seq<nat>): (res: Result<Plan>)
    requires shuffle ==> SwapsFit(|files|, swaps)
    ensures |files| == 0 <==> res == Failure(NoSourceFiles)
    ensures res.Success? <==> |files| > 0 && ChooseLayout(forced, |files|, w, h).Success?
    ensures res.Failure? && |files| > 0 ==> res.fault == ChooseLayout(forced, |files|, w, h).fault
    ensures res.Success? ==> res.value.layout == ChooseLayout(forced, |files|, w, h).value
    ensures res.Success? && duration.None? ==> res.value.duration == DefaultDuration
    ensures res.Success? && duration.Some? ==> res.value.duration == duration.value
    ensures res.Success? ==> |res.value.inputs| == Min(res.value.layout.rows * res.value.layout.cols, |files|)
    ensures res.Success? ==> res.value.inputs <= MaybeShuffle(files, shuffle, swaps)
  {
    if |files| == 0 then Failure(NoSourceFiles)
    else
      var order := MaybeShuffle(files, shuffle, swaps);
      match ChooseLayout(forced, |order|, w, h)
      case Failure(f) => Failure(f)
      case Success(layout) =>
        var first := probe(order[0]);
        Success(SharedCropPlan(order, layout, CenterCrop(first.width, first.height), BasicDuration(duration)))
  }

  /** The basic grid shows its inputs in row-major order, each cropped around
      the centre of the first clip, and every black filler lasts as long as
      the output. */
  lemma BasicShowsInputs(files: seq<Path>, w: int, h: int, duration: Option<int>, shuffle: bool,
                         forced: Option<(int, int)>, probe: Path -> Dims, swaps: seq<nat>)
    requires shuffle ==> SwapsFit(|files|, swaps)
    ensures var res := PlanBasic(files, w, h, duration, shuffle, forced, probe, swaps);
      res.Success? ==>
      var p := res.value;
      var first := probe(MaybeShuffle(files, shuffle, swaps)[0]);
      && Eval(p.graph.nodes, p.graph.output) == Some(Mosaic(p.layout.rows, p.layout.cols, |p.inputs|))
      && (forall i :: 0 <= i < |p.inputs| ==>
            p.graph.nodes[i] == CropScale(i, Crop(first.width, first.height, "center"), p.layout.cellWidth, p.layout.cellHeight, Clip(i)))
      && (forall n :: n in p.graph.nodes && n.ColorFill? ==> n.duration == p.duration)
      && (duration.None? ==> forall n :: n in p.graph.nodes && n.ColorFill? ==> n.duration == DefaultDuration)
  {
    var res := PlanBasic(files, w, h, duration, shuffle, forced, probe, swaps);
    if res.Success? {
      var p := res.value;
      var l := p.layout;
      var first := probe(MaybeShuffle(files, shuffle, swaps)[0]);
      var ws := SameWindow(|p.inputs|, CenterCrop(first.width, first.height));
      CompileClipsFirst(ws, l.rows, l.cols, l.cellWidth, l.cellHeight, p.duration);
      CompileFillersUniform(ws, l.rows, l.cols, l.cellWidth, l.cellHeight, p.duration);
    }
  }
}
