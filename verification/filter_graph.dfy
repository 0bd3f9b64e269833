/** The filter graph the grid generators hand to the transcoder, as data.

    The scripts build a list of filter strings: one crop-and-scale chain per
    clip (`[i:v]crop=...,scale=...[v{i}]`), then row by row a black `color`
    source for every cell no clip fills (`[black{idx}]`) followed, when a row
    has more than one column, by an `hstack` of the row's cells
    (`[row{r}]`), and finally, when there is more than one row, a `vstack`
    of the rows (`[final]`). Here each filter is a `Node` with an output
    `Label` and the labels it consumes, and `Eval` gives the picture a label
    stands for, so that the compiled graph can be checked against the
    intended row-major mosaic. */
module FilterGraph {
  import opened Basics
  import opened CropGeometry

  /** `[v{i}]`, `[black{idx}]`, `[row{r}]` and `[final]`. */
  datatype Label = Clip(index: nat) | Black(index: nat) | Row(row: nat) | Final

  datatype Node =
    | CropScale(stream: nat, window: Window, width: int, height: int, out: Label)
    | ColorFill(width: int, height: int, duration: int, out: Label)
    | HStack(ins: seq<Label>, out: Label)
    | VStack(ins: seq<Label>, out: Label)

  /** The labelled streams a node consumes; a crop chain reads input file
      `stream` directly and a colour source reads nothing. */
  function Inputs(n: Node): seq<Label>
  {
    match n
    case HStack(ins, _) => ins
    case VStack(ins, _) => ins
    case _ => []
  }

  /** The filter list and the label passed to `-map`. */
  datatype Graph = Graph(nodes: seq<Node>, output: Label)

  function Labels(nodes: seq<Node>): set<Label>
  {
    set k | 0 <= k < |nodes| :: nodes[k].out
  }

  /** `nodes` may follow filters defining `defined`: each node's label is new,
      and each label it consumes was defined before it. */
  ghost predicate ScopedAfter(defined: set<Label>, nodes: seq<Node>)
  {
    && (forall k :: 0 <= k < |nodes| ==> nodes[k].out !in defined)
    && (forall j, k :: 0 <= j < k < |nodes| ==> nodes[j].out != nodes[k].out)
    && (forall k :: 0 <= k < |nodes| ==> ReadsDefined(defined, nodes[..k], nodes[k]))
  }

  /** Every label `n` consumes is in `defined` or defined by `before`. */
  ghost predicate ReadsDefined(defined: set<Label>, before: seq<Node>, n: Node)
  {
    forall l :: l in Inputs(n) ==> l in defined || l in Labels(before)
  }

  /** Labels are unique and every label is defined before it is used. */
  ghost predicate WellScoped(nodes: seq<Node>)
  {
    ScopedAfter({}, nodes)
  }

  lemma LabelsAppend(a: seq<Node>, b: seq<Node>)
    ensures Labels(a + b) == Labels(a) + Labels(b)
  {
    forall l | l in Labels(a + b)
      ensures l in Labels(a) + Labels(b)
    {
      var k :| 0 <= k < |a + b| && (a + b)[k].out == l;
      if k >= |a| {
        assert b[k - |a|].out == l;
      }
    }
    forall l | l in Labels(b)
      ensures l in Labels(a + b)
    {
      var k :| 0 <= k < |b| && b[k].out == l;
      assert (a + b)[|a| + k].out == l;
    }
    forall l | l in Labels(a)
      ensures l in Labels(a + b)
    {
      var k :| 0 <= k < |a| && a[k].out == l;
      assert (a + b)[k].out == l;
    }
  }

  /** Two well-scoped runs of filters compose when the second may follow the
      first. */
  lemma ScopedAppend(d: set<Label>, a: seq<Node>, b: seq<Node>)
    requires ScopedAfter(d, a)
    requires ScopedAfter(d + Labels(a), b)
    ensures ScopedAfter(d, a + b)
  {
    var ab := a + b;
    forall k | 0 <= k < |ab|
      ensures ab[k].out !in d
    {
      if k >= |a| {
        assert ab[k] == b[k - |a|];
      }
    }
    forall j, k | 0 <= j < k < |ab|
      ensures ab[j].out != ab[k].out
    {
      if k >= |a| {
        assert ab[k] == b[k - |a|];
        if j < |a| {
          assert ab[j].out in Labels(a);
        } else {
          assert ab[j] == b[j - |a|];
        }
      }
    }
    forall k | 0 <= k < |ab|
      ensures ReadsDefined(d, ab[..k], ab[k])
    {
      if k < |a| {
        assert ab[..k] == a[..k];
      } else {
        assert ab[k] == b[k - |a|];
        assert ab[..k] == a + b[..k - |a|];
        LabelsAppend(a, b[..k - |a|]);
      }
    }
  }

  /** The label of grid cell `idx`: the clip's chain when a clip fills it,
      the black filler otherwise. */
  function CellLabel(idx: nat, used: nat): Label
  {
    if idx < used then Clip(idx) else Black(idx)
  }

  /** One crop-and-scale chain per used clip, reading input `i` into `[v{i}]`. */
  function ClipNodes(windows: seq<Window>, w: int, h: int): (ns: seq<Node>)
  {
    seq(|windows|, i requires 0 <= i < |windows| => CropScale(i, windows[i], w, h, Clip(i)))
  }

  /** The black sources emitted while visiting cells `idx..end` of a row:
      one for each cell at or beyond the number of used clips. */
  function Fillers(idx: nat, end: nat, used: nat, w: int, h: int, dur: int): (ns: seq<Node>)
    ensures |ns| == Max(0, end - Max(idx, used))
    ensures forall k :: 0 <= k < |ns| ==> ns[k] == ColorFill(w, h, dur, Black(Max(idx, used) + k))
    decreases end - idx
  {
    if idx >= end then []
    else if idx < used then Fillers(idx + 1, end, used, w, h, dur)
    else [ColorFill(w, h, dur, Black(idx))] + Fillers(idx + 1, end, used, w, h, dur)
  }

  /** The cells of row `r`, left to right: cell `(r, c)` is grid index `r * cols + c`. */
  function RowCells(r: nat, cols: nat, used: nat): (cells: seq<Label>)
  {
    seq(cols, c requires 0 <= c < cols => CellLabel(r * cols + c, used))
  }

  /** The `hstack` of row `r`, emitted only when the row has more than one cell. */
  function RowStack(r: nat, cols: nat, used: nat): seq<Node>
  {
    if cols > 1 then [HStack(RowCells(r, cols, used), Row(r))] else []
  }

  /** What row `r` contributes to the filter list: its fillers, then its stack. */
  function RowBlock(r: nat, cols: nat, used: nat, w: int, h: int, dur: int): seq<Node>
  {
    Fillers(r * cols, r * cols + cols, used, w, h, dur) + RowStack(r, cols, used)
  }

  /** The label standing for row `r`: its `hstack`, or its only cell. */
  function RowOutput(r: nat, cols: nat, used: nat): Label
  {
    if cols > 1 then Row(r) else CellLabel(r * cols, used)
  }

  /** The blocks of rows `0..k`, in order. */
  function Rows(k: nat, cols: nat, used: nat, w: int, h: int, dur: int): seq<Node>
  {
    if k == 0 then [] else Rows(k - 1, cols, used, w, h, dur) + RowBlock(k - 1, cols, used, w, h, dur)
  }

  /** The clip chains followed by the blocks of rows `0..k`. */
  function Prefix(windows: seq<Window>, k: nat, cols: nat, w: int, h: int, dur: int): seq<Node>
  {
    ClipNodes(windows, w, h) + Rows(k, cols, |windows|, w, h, dur)
  }

  /** The final `vstack`, present only for more than one row. */
  function Tail(rows: nat, cols: nat, used: nat): seq<Node>
  {
    if rows > 1 then [VStack(seq(rows, r requires 0 <= r < rows => RowOutput(r, cols, used)), Final)] else []
  }

  /** The labels defined by the clip chains for `used` clips followed by the
      blocks of the first `rowsDone` rows, which cover the first `cellsDone`
      grid cells; rows have stacks exactly when `stacked`. */
  predicate InScope(l: Label, used: nat, rowsDone: nat, cellsDone: nat, stacked: bool)
  {
    match l
    case Clip(i) => i < used
    case Black(i) => used <= i < cellsDone
    case Row(r) => stacked && r < rowsDone
    case Final => false
  }

  lemma ClipNodesScoped(windows: seq<Window>, stacked: bool, w: int, h: int)
    ensures WellScoped(ClipNodes(windows, w, h))
    ensures forall l :: l in Labels(ClipNodes(windows, w, h)) <==> InScope(l, |windows|, 0, 0, stacked)
  {
    var ns := ClipNodes(windows, w, h);
    forall l
      ensures l in Labels(ns) <==> InScope(l, |windows|, 0, 0, stacked)
    {
      if InScope(l, |windows|, 0, 0, stacked) {
        assert ns[l.index].out == l;
      }
    }
  }

  lemma FillersScoped(d: set<Label>, lo: nat, hi: nat, used: nat, w: int, h: int, dur: int)
    requires forall i: nat :: Max(lo, used) <= i < hi ==> Black(i) !in d
    ensures ScopedAfter(d, Fillers(lo, hi, used, w, h, dur))
    ensures forall l :: l in Labels(Fillers(lo, hi, used, w, h, dur)) <==> l.Black? && Max(lo, used) <= l.index < hi
  {
    var ns := Fillers(lo, hi, used, w, h, dur);
    var start := Max(lo, used);
    forall l
      ensures l in Labels(ns) <==> l.Black? && start <= l.index < hi
    {
      if l.Black? && start <= l.index < hi {
        assert ns[l.index - start].out == l;
      }
    }
    forall k | 0 <= k < |ns|
      ensures ns[k].out !in d
    {
      assert ns[k].out == Black(start + k);
    }
  }

  /** The block of row `r`, whose cells start at grid index `lo`, may follow
      the clip chains and the earlier rows, and adds that row's fillers and
      stack to the defined labels. */
  lemma BlockScoped(d: set<Label>, r: nat, lo: nat, cols: nat, used: nat, w: int, h: int, dur: int)
    requires cols >= 1 && lo == r * cols
    requires forall l :: l in d <==> InScope(l, used, r, lo, cols > 1)
    ensures ScopedAfter(d, Fillers(lo, lo + cols, used, w, h, dur))
    ensures ScopedAfter(d + Labels(Fillers(lo, lo + cols, used, w, h, dur)), RowStack(r, cols, used))
    ensures forall l :: (l in d || l in Labels(Fillers(lo, lo + cols, used, w, h, dur)) || l in Labels(RowStack(r, cols, used)))
                   <==> InScope(l, used, r + 1, lo + cols, cols > 1)
  {
    FillersScoped(d, lo, lo + cols, used, w, h, dur);
    StackScoped(d + Labels(Fillers(lo, lo + cols, used, w, h, dur)), r, lo, cols, used);
  }

  /** A row's stack reads only cells already defined, and is the only
      definition of its label. */
  lemma StackScoped(df: set<Label>, r: nat, lo: nat, cols: nat, used: nat)
    requires cols >= 1 && lo == r * cols
    requires forall l :: l in df <==> InScope(l, used, r, lo, cols > 1) || (l.Black? && Max(lo, used) <= l.index < lo + cols)
    ensures ScopedAfter(df, RowStack(r, cols, used))
    ensures Labels(RowStack(r, cols, used)) == if cols > 1 then {Row(r)} else {}
  {
    var st := RowStack(r, cols, used);
    if cols > 1 {
      var cells := RowCells(r, cols, used);
      forall l | l in Inputs(st[0])
        ensures l in df
      {
        var c :| 0 <= c < cols && cells[c] == l;
        assert l == CellLabel(lo + c, used);
      }
      assert st[..0] == [];
      assert Labels(st) == {Row(r)};
    } else {
      assert Labels(st) == {};
    }
  }

  /** Appending a row's fillers and then its stack keeps a filter list well scoped. */
  lemma BlockAppend(p: seq<Node>, f: seq<Node>, st: seq<Node>)
    requires WellScoped(p)
    requires ScopedAfter(Labels(p), f)
    requires ScopedAfter(Labels(p) + Labels(f), st)
    ensures WellScoped(p + f + st)
    ensures Labels(p + f + st) == Labels(p) + Labels(f) + Labels(st)
  {
    assert {} + Labels(p) == Labels(p);
    ScopedAppend({}, p, f);
    LabelsAppend(p, f);
    assert {} + Labels(p + f) == Labels(p) + Labels(f);
    ScopedAppend({}, p + f, st);
    LabelsAppend(p + f, st);
  }

  lemma PrefixStep(windows: seq<Window>, k: nat, lo: nat, cols: nat, w: int, h: int, dur: int)
    requires lo == k * cols
    ensures Prefix(windows, k + 1, cols, w, h, dur)
         == Prefix(windows, k, cols, w, h, dur) + Fillers(lo, lo + cols, |windows|, w, h, dur) + RowStack(k, cols, |windows|)
  {
    var used := |windows|;
    var f := Fillers(lo, lo + cols, used, w, h, dur);
    var st := RowStack(k, cols, used);
    var rs := Rows(k, cols, used, w, h, dur);
    assert Rows(k + 1, cols, used, w, h, dur) == rs + (f + st);
    Regroup(ClipNodes(windows, w, h), rs, f, st);
  }

  /** The clip chains and the first `k` row blocks are well scoped and define
      exactly the labels `InScope` names. */
  lemma {:induction false} RowsScoped(windows: seq<Window>, k: nat, cols: nat, w: int, h: int, dur: int)
    requires cols >= 1
    ensures WellScoped(Prefix(windows, k, cols, w, h, dur))
    ensures forall l :: l in Labels(Prefix(windows, k, cols, w, h, dur)) <==> InScope(l, |windows|, k, k * cols, cols > 1)
  {
    var used := |windows|;
    if k == 0 {
      assert Prefix(windows, 0, cols, w, h, dur) == ClipNodes(windows, w, h);
      ClipNodesScoped(windows, cols > 1, w, h);
    } else {
      var p := Prefix(windows, k - 1, cols, w, h, dur);
      RowsScoped(windows, k - 1, cols, w, h, dur);
      var lo := (k - 1) * cols;
      assert lo + cols == k * cols;
      BlockScoped(Labels(p), k - 1, lo, cols, used, w, h, dur);
      BlockAppend(p, Fillers(lo, lo + cols, used, w, h, dur), RowStack(k - 1, cols, used));
      PrefixStep(windows, k - 1, lo, cols, w, h, dur);
    }
  }

  /** A well-scoped filter list stays well scoped when cut short. */
  lemma ScopedPrefix(nodes: seq<Node>, n: nat)
    requires n <= |nodes|
    requires WellScoped(nodes)
    ensures WellScoped(nodes[..n])
  {
    assert ScopedAfter({}, nodes);
    forall k | 0 <= k < n
      ensures ReadsDefined({}, nodes[..n][..k], nodes[..n][k])
    {
      assert nodes[..n][k] == nodes[k];
      assert nodes[..n][..k] == nodes[..k];
    }
  }

  // ---------------------------------------------------------------------------
  // What a label shows
  // ---------------------------------------------------------------------------

  /** What one grid cell shows: a clip's input stream, or black. */
  datatype Cell = Shows(stream: nat) | Blank

  /** A picture made of cells, as rows from top to bottom. */
  type Tile = seq<seq<Cell>>

  function FindFrom(nodes: seq<Node>, l: Label, i: nat): (r: Option<nat>)
    requires i <= |nodes|
    ensures r.Some? ==> i <= r.value < |nodes| && nodes[r.value].out == l
    ensures r.Some? ==> forall j :: i <= j < r.value ==> nodes[j].out != l
    ensures r.None? ==> forall j :: i <= j < |nodes| ==> nodes[j].out != l
    decreases |nodes| - i
  {
    if i == |nodes| then None
    else if nodes[i].out == l then Some(i)
    else FindFrom(nodes, l, i + 1)
  }

  /** The position of the first filter whose output is `l`. */
  function Find(nodes: seq<Node>, l: Label): (r: Option<nat>)
    ensures r.Some? ==> r.value < |nodes| && nodes[r.value].out == l
    ensures r.Some? ==> forall j :: 0 <= j < r.value ==> nodes[j].out != l
    ensures r.None? <==> l !in Labels(nodes)
  {
    FindFrom(nodes, l, 0)
  }

  /** `hstack` of two pictures: row by row, left then right. */
  function Join(a: Tile, b: Tile): Tile
  {
    seq(Min(|a|, |b|), y requires 0 <= y < Min(|a|, |b|) => a[y] + b[y])
  }

  /** `hstack` of its inputs, left to right. */
  function Beside(ts: seq<Tile>): Tile
  {
    if |ts| == 0 then [] else if |ts| == 1 then ts[0] else Join(ts[0], Beside(ts[1..]))
  }

  /** `vstack` of its inputs, top to bottom. */
  function Above(ts: seq<Tile>): Tile
  {
    if |ts| == 0 then [] else ts[0] + Above(ts[1..])
  }

  /** The picture label `l` stands for in the filter list `nodes`: the first
      filter defining it, evaluated over the filters before it. */
  function Eval(nodes: seq<Node>, l: Label): Option<Tile>
    decreases |nodes|, 0
  {
    match Find(nodes, l)
    case None => None
    case Some(j) =>
      match nodes[j]
      case CropScale(s, _, _, _, _) => Some([[Shows(s)]])
      case ColorFill(_, _, _, _) => Some([[Blank]])
      case HStack(ins, _) =>
        (match EvalAll(nodes[..j], ins) case None => None case Some(ts) => Some(Beside(ts)))
      case VStack(ins, _) =>
        (match EvalAll(nodes[..j], ins) case None => None case Some(ts) => Some(Above(ts)))
  }

  function EvalAll(nodes: seq<Node>, ins: seq<Label>): Option<seq<Tile>>
    decreases |nodes|, 1, |ins|
  {
    if |ins| == 0 then Some([])
    else
      match (Eval(nodes, ins[0]), EvalAll(nodes, ins[1..]))
      case (Some(t), Some(ts)) => Some([t] + ts)
      case _ => None
  }

  /** What grid cell `idx` should show when `used` clips fill the grid. */
  function CellAt(idx: nat, used: nat): Cell
  {
    if idx < used then Shows(idx) else Blank
  }

  function RowContent(r: nat, cols: nat, used: nat): seq<Cell>
  {
    seq(cols, c requires 0 <= c < cols => CellAt(r * cols + c, used))
  }

  /** The intended picture: clip `i` in row `i / cols`, column `i % cols`,
      and black in every cell beyond the last clip. */
  function Mosaic(rows: nat, cols: nat, used: nat): Tile
  {
    seq(rows, r requires 0 <= r < rows => RowContent(r, cols, used))
  }

  lemma FindDefined(nodes: seq<Node>, j: nat)
    requires j < |nodes|
    requires forall i :: 0 <= i < j ==> nodes[i].out != nodes[j].out
    ensures Find(nodes, nodes[j].out) == Some(j)
  {
    var r := Find(nodes, nodes[j].out);
    assert nodes[j].out in Labels(nodes);
  }

  /** A label that evaluates is defined. */
  lemma EvalDefined(nodes: seq<Node>, l: Label)
    requires Eval(nodes, l).Some?
    ensures l in Labels(nodes)
  {
  }

  /** Filters appended after the definition of `l` do not change what it shows. */
  lemma EvalExtend(a: seq<Node>, b: seq<Node>, l: Label)
    requires l in Labels(a)
    ensures Eval(a + b, l) == Eval(a, l)
  {
    var j := Find(a, l).value;
    assert (a + b)[j] == a[j];
    FindDefined(a + b, j);
    assert (a + b)[..j] == a[..j];
  }

  lemma {:induction false} EvalAllSome(nodes: seq<Node>, ins: seq<Label>, ts: seq<Tile>)
    requires |ts| == |ins|
    requires forall i :: 0 <= i < |ins| ==> Eval(nodes, ins[i]) == Some(ts[i])
    ensures EvalAll(nodes, ins) == Some(ts)
    decreases |ins|
  {
    if |ins| > 0 {
      EvalAllSome(nodes, ins[1..], ts[1..]);
      assert [ts[0]] + ts[1..] == ts;
    }
  }

  /** Single cells side by side make one row. */
  lemma {:induction false} BesideCells(ts: seq<Tile>, xs: seq<Cell>)
    requires |ts| == |xs| >= 1
    requires forall i :: 0 <= i < |ts| ==> ts[i] == [[xs[i]]]
    ensures Beside(ts) == [xs]
    decreases |ts|
  {
    if |ts| > 1 {
      BesideCells(ts[1..], xs[1..]);
      assert Join(ts[0], [xs[1..]]) == [[xs[0]] + xs[1..]];
      assert [xs[0]] + xs[1..] == xs;
    } else {
      assert xs == [xs[0]];
    }
  }

  /** Single rows one above another make a picture of those rows. */
  lemma {:induction false} AboveRows(ts: seq<Tile>, rs: seq<seq<Cell>>)
    requires |ts| == |rs|
    requires forall i :: 0 <= i < |ts| ==> ts[i] == [rs[i]]
    ensures Above(ts) == rs
    decreases |ts|
  {
    if |ts| > 0 {
      AboveRows(ts[1..], rs[1..]);
      assert [rs[0]] + rs[1..] == rs;
    }
  }

  /** Every cell up to `n`, and every clip, shows what the mosaic puts there. */
  ghost predicate CellsShown(nodes: seq<Node>, used: nat, n: nat)
  {
    forall i: nat :: i < used || i < n ==> Eval(nodes, CellLabel(i, used)) == Some([[CellAt(i, used)]])
  }

  /** Each of the first `k` rows shows its row of the mosaic. */
  ghost predicate RowsShown(nodes: seq<Node>, cols: nat, used: nat, k: nat)
  {
    forall r: nat :: r < k ==> Eval(nodes, RowOutput(r, cols, used)) == Some([RowContent(r, cols, used)])
  }

  lemma CellsShownExtend(a: seq<Node>, b: seq<Node>, used: nat, n: nat)
    requires CellsShown(a, used, n)
    ensures CellsShown(a + b, used, n)
  {
    forall i: nat | i < used || i < n
      ensures Eval(a + b, CellLabel(i, used)) == Some([[CellAt(i, used)]])
    {
      EvalDefined(a, CellLabel(i, used));
      EvalExtend(a, b, CellLabel(i, used));
    }
  }

  lemma RowsShownExtend(a: seq<Node>, b: seq<Node>, cols: nat, used: nat, k: nat)
    requires RowsShown(a, cols, used, k)
    ensures RowsShown(a + b, cols, used, k)
  {
    forall r: nat | r < k
      ensures Eval(a + b, RowOutput(r, cols, used)) == Some([RowContent(r, cols, used)])
    {
      EvalDefined(a, RowOutput(r, cols, used));
      EvalExtend(a, b, RowOutput(r, cols, used));
    }
  }

  lemma ClipsShown(windows: seq<Window>, w: int, h: int)
    ensures CellsShown(ClipNodes(windows, w, h), |windows|, 0)
  {
    var ns := ClipNodes(windows, w, h);
    forall i: nat | i < |windows|
      ensures Eval(ns, CellLabel(i, |windows|)) == Some([[CellAt(i, |windows|)]])
    {
      FindDefined(ns, i);
    }
  }

  /** After a row's fillers, every cell of that row shows its mosaic cell. */
  lemma FillersShown(p: seq<Node>, lo: nat, cols: nat, used: nat, w: int, h: int, dur: int)
    requires CellsShown(p, used, lo)
    requires WellScoped(p + Fillers(lo, lo + cols, used, w, h, dur))
    ensures CellsShown(p + Fillers(lo, lo + cols, used, w, h, dur), used, lo + cols)
  {
    var f := Fillers(lo, lo + cols, used, w, h, dur);
    var start := Max(lo, used);
    forall i: nat | i < used || i < lo + cols
      ensures Eval(p + f, CellLabel(i, used)) == Some([[CellAt(i, used)]])
    {
      if i < used || i < lo {
        EvalDefined(p, CellLabel(i, used));
        EvalExtend(p, f, CellLabel(i, used));
      } else {
        var j := |p| + (i - start);
        assert (p + f)[j] == f[i - start];
        FindDefined(p + f, j);
      }
    }
  }

  /** A row's `hstack` shows that row of the mosaic. */
  lemma StackShown(q: seq<Node>, r: nat, lo: nat, cols: nat, used: nat)
    requires cols > 1 && lo == r * cols
    requires CellsShown(q, used, lo + cols)
    requires WellScoped(q + RowStack(r, cols, used))
    ensures Eval(q + RowStack(r, cols, used), Row(r)) == Some([RowContent(r, cols, used)])
  {
    var st := RowStack(r, cols, used);
    var cells := RowCells(r, cols, used);
    var row := RowContent(r, cols, used);
    FindDefined(q + st, |q|);
    assert (q + st)[..|q|] == q;
    var ts := seq(cols, c requires 0 <= c < cols => [[row[c]]]);
    forall c | 0 <= c < cols
      ensures Eval(q, cells[c]) == Some(ts[c])
    {
      assert cells[c] == CellLabel(lo + c, used);
    }
    EvalAllSome(q, cells, ts);
    BesideCells(ts, row);
  }

  /** The clip chains and the first `k` row blocks show the first `k` rows
      of the mosaic. */
  lemma {:induction false} PrefixShown(windows: seq<Window>, k: nat, cols: nat, w: int, h: int, dur: int)
    requires cols >= 1
    ensures CellsShown(Prefix(windows, k, cols, w, h, dur), |windows|, k * cols)
    ensures RowsShown(Prefix(windows, k, cols, w, h, dur), cols, |windows|, k)
  {
    var used := |windows|;
    if k == 0 {
      assert Prefix(windows, 0, cols, w, h, dur) == ClipNodes(windows, w, h);
      ClipsShown(windows, w, h);
    } else {
      var p := Prefix(windows, k - 1, cols, w, h, dur);
      PrefixShown(windows, k - 1, cols, w, h, dur);
      var lo := (k - 1) * cols;
      assert lo + cols == k * cols;
      PrefixStep(windows, k - 1, lo, cols, w, h, dur);
      RowsScoped(windows, k, cols, w, h, dur);
      BlockShown(p, k - 1, lo, cols, used, w, h, dur);
    }
  }

  /** A row block extends what the filter list shows by that row. */
  lemma BlockShown(p: seq<Node>, r: nat, lo: nat, cols: nat, used: nat, w: int, h: int, dur: int)
    requires cols >= 1 && lo == r * cols
    requires CellsShown(p, used, lo) && RowsShown(p, cols, used, r)
    requires WellScoped(p + Fillers(lo, lo + cols, used, w, h, dur) + RowStack(r, cols, used))
    ensures CellsShown(p + Fillers(lo, lo + cols, used, w, h, dur) + RowStack(r, cols, used), used, lo + cols)
    ensures RowsShown(p + Fillers(lo, lo + cols, used, w, h, dur) + RowStack(r, cols, used), cols, used, r + 1)
  {
    var f := Fillers(lo, lo + cols, used, w, h, dur);
    var st := RowStack(r, cols, used);
    assert (p + f + st)[..|p + f|] == p + f;
    ScopedPrefix(p + f + st, |p + f|);
    FillersShown(p, lo, cols, used, w, h, dur);
    CellsShownExtend(p + f, st, used, lo + cols);
    assert p + f + st == p + (f + st);
    RowsShownExtend(p, f + st, cols, used, r);
    LastRowShown(p + f, st, r, lo, cols, used);
  }

  lemma LastRowShown(q: seq<Node>, st: seq<Node>, r: nat, lo: nat, cols: nat, used: nat)
    requires cols >= 1 && lo == r * cols && st == RowStack(r, cols, used)
    requires CellsShown(q, used, lo + cols)
    requires CellsShown(q + st, used, lo + cols)
    requires RowsShown(q + st, cols, used, r)
    requires WellScoped(q + st)
    ensures RowsShown(q + st, cols, used, r + 1)
  {
    if cols > 1 {
      StackShown(q, r, lo, cols, used);
    } else {
      assert RowContent(r, cols, used) == [CellAt(lo, used)];
    }
  }

  // ---------------------------------------------------------------------------
  // The whole graph
  // ---------------------------------------------------------------------------

  /** The label passed to `-map`: `[final]` for several rows, else the only row. */
  function OutputLabel(rows: nat, cols: nat, used: nat): Label
  {
    if rows > 1 then Final else RowOutput(0, cols, used)
  }

  /** The filter graph of a `rows` x `cols` grid whose first `|windows|` cells
      show the clips cropped by `windows` and scaled to `w` x `h`; black
      fillers of `dur` seconds take the remaining cells. */
  function Compile(windows: seq<Window>, rows: nat, cols: nat, w: int, h: int, dur: int): (g: Graph)
    requires rows >= 1 && cols >= 1
    ensures WellScoped(g.nodes)
    ensures g.output in Labels(g.nodes)
    ensures Eval(g.nodes, g.output) == Some(Mosaic(rows, cols, |windows|))
  {
    var used := |windows|;
    var nodes := Prefix(windows, rows, cols, w, h, dur) + Tail(rows, cols, used);
    CompileFacts(windows, rows, cols, w, h, dur);
    Graph(nodes, OutputLabel(rows, cols, used))
  }

  lemma CompileFacts(windows: seq<Window>, rows: nat, cols: nat, w: int, h: int, dur: int)
    requires rows >= 1 && cols >= 1
    ensures WellScoped(Prefix(windows, rows, cols, w, h, dur) + Tail(rows, cols, |windows|))
    ensures OutputLabel(rows, cols, |windows|) in Labels(Prefix(windows, rows, cols, w, h, dur) + Tail(rows, cols, |windows|))
    ensures Eval(Prefix(windows, rows, cols, w, h, dur) + Tail(rows, cols, |windows|), OutputLabel(rows, cols, |windows|))
         == Some(Mosaic(rows, cols, |windows|))
  {
    var used := |windows|;
    var p := Prefix(windows, rows, cols, w, h, dur);
    var t := Tail(rows, cols, used);
    RowsScoped(windows, rows, cols, w, h, dur);
    PrefixShown(windows, rows, cols, w, h, dur);
    if rows > 1 {
      TailScoped(p, rows, cols, used);
      var outs := seq(rows, r requires 0 <= r < rows => RowOutput(r, cols, used));
      var m := Mosaic(rows, cols, used);
      var ts := seq(rows, r requires 0 <= r < rows => [m[r]]);
      FindDefined(p + t, |p|);
      assert (p + t)[..|p|] == p;
      EvalAllSome(p, outs, ts);
      AboveRows(ts, m);
      assert (p + t)[|p|].out == Final;
    } else {
      assert p + t == p;
      EvalDefined(p, RowOutput(0, cols, used));
      assert Mosaic(1, cols, used) == [RowContent(0, cols, used)];
    }
  }

  /** The final `vstack` reads only rows already defined. */
  lemma TailScoped(p: seq<Node>, rows: nat, cols: nat, used: nat)
    requires rows > 1 && cols >= 1
    requires WellScoped(p)
    requires forall l :: l in Labels(p) <==> InScope(l, used, rows, rows * cols, cols > 1)
    ensures WellScoped(p + Tail(rows, cols, used))
  {
    var t := Tail(rows, cols, used);
    forall l | l in Inputs(t[0])
      ensures l in Labels(p)
    {
      var r :| 0 <= r < rows && l == RowOutput(r, cols, used);
      if cols == 1 {
        assert r < rows * cols;
      }
    }
    assert t[..0] == [];
    assert {} + Labels(p) == Labels(p);
    ScopedAppend({}, p, t);
  }

  /** The compiled graph defines a clip chain for every used clip, a black
      filler exactly for the cells past the last clip, a row stack exactly
      when rows have more than one cell, and `[final]` exactly when there is
      more than one row. */
  lemma CompileLabels(windows: seq<Window>, rows: nat, cols: nat, w: int, h: int, dur: int)
    requires rows >= 1 && cols >= 1
    ensures forall i: nat :: Clip(i) in Labels(Compile(windows, rows, cols, w, h, dur).nodes) <==> i < |windows|
    ensures forall i: nat :: Black(i) in Labels(Compile(windows, rows, cols, w, h, dur).nodes) <==> |windows| <= i < rows * cols
    ensures forall r: nat :: Row(r) in Labels(Compile(windows, rows, cols, w, h, dur).nodes) <==> cols > 1 && r < rows
    ensures Final in Labels(Compile(windows, rows, cols, w, h, dur).nodes) <==> rows > 1
    ensures Compile(windows, rows, cols, w, h, dur).output == Final <==> rows > 1
  {
    GraphLabels(windows, rows, cols, w, h, dur);
  }

  lemma GraphLabels(windows: seq<Window>, rows: nat, cols: nat, w: int, h: int, dur: int)
    requires rows >= 1 && cols >= 1
    ensures forall l :: l in Labels(Compile(windows, rows, cols, w, h, dur).nodes)
                   <==> InScope(l, |windows|, rows, rows * cols, cols > 1) || (l == Final && rows > 1)
  {
    var p := Prefix(windows, rows, cols, w, h, dur);
    var t := Tail(rows, cols, |windows|);
    RowsScoped(windows, rows, cols, w, h, dur);
    LabelsAppend(p, t);
    TailLabels(rows, cols, |windows|);
  }

  lemma TailLabels(rows: nat, cols: nat, used: nat)
    ensures Labels(Tail(rows, cols, used)) == if rows > 1 then {Final} else {}
  {
    var t := Tail(rows, cols, used);
    if rows > 1 {
      assert t[0].out == Final;
    }
  }

  /** The clip chains come first, in input order. */
  lemma CompileClipsFirst(windows: seq<Window>, rows: nat, cols: nat, w: int, h: int, dur: int)
    requires rows >= 1 && cols >= 1
    ensures forall i :: 0 <= i < |windows| ==> Compile(windows, rows, cols, w, h, dur).nodes[i] == CropScale(i, windows[i], w, h, Clip(i))
  {
    var ns := ClipNodes(windows, w, h);
    var g := Compile(windows, rows, cols, w, h, dur);
    forall i | 0 <= i < |windows|
      ensures g.nodes[i] == ns[i]
    {
    }
  }

  lemma {:induction false} PrefixSize(windows: seq<Window>, k: nat, cols: nat, w: int, h: int, dur: int)
    ensures |Prefix(windows, k, cols, w, h, dur)| == |windows| + Max(0, k * cols - |windows|) + (if cols > 1 then k else 0)
  {
    if k > 0 {
      var lo := (k - 1) * cols;
      assert lo + cols == k * cols;
      PrefixSize(windows, k - 1, cols, w, h, dur);
      PrefixStep(windows, k - 1, lo, cols, w, h, dur);
    }
  }

  /** One filter per clip, one per black cell, one `hstack` per row when rows
      have several cells, and one `vstack` when there are several rows. */
  lemma CompileSize(windows: seq<Window>, rows: nat, cols: nat, w: int, h: int, dur: int)
    requires rows >= 1 && cols >= 1
    ensures |Compile(windows, rows, cols, w, h, dur).nodes|
         == |windows| + Max(0, rows * cols - |windows|) + (if cols > 1 then rows else 0) + (if rows > 1 then 1 else 0)
  {
    PrefixSize(windows, rows, cols, w, h, dur);
  }

  /** Every black filler has the cell size and the clip duration. */
  lemma {:induction false} PrefixFillersUniform(windows: seq<Window>, k: nat, cols: nat, w: int, h: int, dur: int)
    ensures forall n :: n in Prefix(windows, k, cols, w, h, dur) && n.ColorFill? ==> n.width == w && n.height == h && n.duration == dur
  {
    if k == 0 {
      assert Prefix(windows, 0, cols, w, h, dur) == ClipNodes(windows, w, h);
    } else {
      var lo := (k - 1) * cols;
      PrefixFillersUniform(windows, k - 1, cols, w, h, dur);
      PrefixStep(windows, k - 1, lo, cols, w, h, dur);
    }
  }

  lemma CompileFillersUniform(windows: seq<Window>, rows: nat, cols: nat, w: int, h: int, dur: int)
    requires rows >= 1 && cols >= 1
    ensures forall n :: n in Compile(windows, rows, cols, w, h, dur).nodes && n.ColorFill? ==> n.width == w && n.height == h && n.duration == dur
  {
    PrefixFillersUniform(windows, rows, cols, w, h, dur);
  }
}
