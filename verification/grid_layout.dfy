/** The grid layout search of `calculate_optimal_grid` and of the stand-alone
    `calculate_grid.py` script.

    For every row count `r` in `1..bound` the search takes `cols = ceil(n / r)`
    and keeps the candidate whose aspect `cols / r` is closest to `W / H`,
    replacing the best so far only on a strictly smaller difference. The
    comparison `|c1/r1 - W/H| < |c2/r2 - W/H|` is stated on the exact
    rational gaps by cross-multiplying:
    `|c1*H - W*r1| * r2 < |c2*H - W*r2| * r1` (`Closer`); `CloserIsRatioOrder`
    ties the two readings together over the reals. With exact gaps a tie
    goes to the smallest row count. The scripts compare doubles, and where
    two exact gaps are equal the rounding can make the later one smaller:
    `ExactTieKeepsEightRows` and `FloatsBreakTheTie` show one such case. */
module GridLayout {
  import opened Basics

  /** `range(1, 20)` in the grid generators. */
  const MaxRows: nat := 19

  /** `range(1, 15)` in the stand-alone script. */
  const ScriptMaxRows: nat := 14

  datatype Layout = Layout(rows: nat, cols: nat, cellWidth: int, cellHeight: int)

  /** `math.ceil(n / r)` for a clip count and a positive row count. */
  function CeilDiv(n: nat, r: nat): (c: nat)
    requires r >= 1
    ensures r * c >= n
    ensures c == 0 || r * (c - 1) < n
  {
    var c := (n + r - 1) / r;
    assert r * c + (n + r - 1) % r == n + r - 1;
    c
  }

  /** Columns tried for `r` rows. */
  function Cols(n: nat, r: nat): nat
    requires r >= 1
  {
    CeilDiv(n, r)
  }

  /** `|cols*H - W*rows|`: the aspect-ratio gap `|cols/rows - W/H|` scaled
      by `rows * |H|`. */
  function Dev(c: int, r: int, w: int, h: int): nat
  {
    Abs(c * h - w * r)
  }

  function Deviation(n: nat, w: int, h: int, r: nat): nat
    requires r >= 1
  {
    Dev(Cols(n, r), r, w, h)
  }

  /** Row count `a` gives an aspect strictly closer to `W / H` than row count `b`. */
  predicate Closer(n: nat, w: int, h: int, a: nat, b: nat)
    requires a >= 1 && b >= 1
  {
    Deviation(n, w, h, a) * b < Deviation(n, w, h, b) * a
  }

  /** `abs(cols / rows - W / H)`, the float quantity the source compares,
      over the reals. */
  function Gap(c: int, r: int, w: int, h: int): real
    requires r >= 1 && h != 0
  {
    RAbs(c as real / r as real - w as real / h as real)
  }

  function RAbs(x: real): real { if x >= 0.0 then x else -x }

  function RatioGap(n: nat, w: int, h: int, r: nat): real
    requires r >= 1 && h != 0
  {
    Gap(Cols(n, r), r, w, h)
  }

  lemma GapIsScaledDev(c: int, r: int, w: int, h: int)
    requires r >= 1 && h != 0
    ensures Gap(c, r, w, h) * (r as real * (Abs(h) as real)) == Dev(c, r, w, h) as real
  {
    var cc, rr, hh, ww := c as real, r as real, h as real, w as real;
    var g := cc / rr - ww / hh;
    assert g * (rr * hh) == cc * hh - ww * rr;
    if h > 0 {
      assert Abs(h) as real == hh;
    } else {
      assert Abs(h) as real == -hh;
    }
  }

  lemma MulStrict(x: int, y: int, k: int)
    requires x < y && k > 0
    ensures x * k < y * k
  {
  }

  lemma MulWeak(x: int, y: int, k: int)
    requires x <= y && k >= 0
    ensures x * k <= y * k
  {
  }

  /** Cross-multiplied comparisons chain: `da/a < db/b <= dq/q` gives
      `da/a < dq/q`. */
  lemma CrossChain(da: int, db: int, dq: int, a: int, b: int, q: int)
    requires a > 0 && b > 0 && q > 0
    requires da * b < db * a
    requires db * q <= dq * b
    ensures da * q < dq * a
  {
    MulStrict(da * b, db * a, q);
    MulWeak(db * q, dq * b, a);
    assert da * b * q == (da * q) * b;
    assert db * a * q == (db * q) * a;
    assert dq * b * a == (dq * a) * b;
    if da * q >= dq * a {
      MulWeak(dq * a, da * q, b);
    }
  }

  /** Gaps scaled by positive factors `a * hh` and `b * hh` compare crosswise
      like the gaps themselves. */
  lemma ScaledCrossOrder(da: int, db: int, a: int, b: int, ga: real, gb: real, hh: real)
    requires a >= 1 && b >= 1 && hh > 0.0
    requires ga * (a as real * hh) == da as real
    requires gb * (b as real * hh) == db as real
    ensures da * b < db * a <==> ga < gb
  {
    var k := a as real * b as real * hh;
    assert (da * b) as real == da as real * b as real;
    assert (db * a) as real == db as real * a as real;
    assert k > 0.0 by {
      assert a as real * b as real > 0.0;
    }
    assert da as real * b as real == ga * k;
    assert db as real * a as real == gb * k;
    assert ga < gb <==> ga * k < gb * k;
  }

  /** Cross-multiplied deviations order candidates exactly as their ratio gaps. */
  lemma DevOrderIsGapOrder(ca: int, a: int, cb: int, b: int, w: int, h: int)
    requires a >= 1 && b >= 1 && h != 0
    ensures Dev(ca, a, w, h) * b < Dev(cb, b, w, h) * a <==> Gap(ca, a, w, h) < Gap(cb, b, w, h)
  {
    GapIsScaledDev(ca, a, w, h);
    GapIsScaledDev(cb, b, w, h);
    ScaledCrossOrder(Dev(ca, a, w, h), Dev(cb, b, w, h), a, b, Gap(ca, a, w, h), Gap(cb, b, w, h), Abs(h) as real);
  }

  /** The integer comparison `Closer` is exactly the source's ratio comparison. */
  lemma CloserIsRatioOrder(n: nat, w: int, h: int, a: nat, b: nat)
    requires a >= 1 && b >= 1 && h != 0
    ensures Closer(n, w, h, a, b) <==> RatioGap(n, w, h, a) < RatioGap(n, w, h, b)
  {
    DevOrderIsGapOrder(Cols(n, a), a, Cols(n, b), b, w, h);
  }

  /** `Closer` is transitive through a "not worse" step: what beats `b`
      beats everything `b` is not worse than. */
  lemma CloserThrough(n: nat, w: int, h: int, a: nat, b: nat, q: nat)
    requires a >= 1 && b >= 1 && q >= 1
    requires Closer(n, w, h, a, b)
    requires !Closer(n, w, h, q, b)
    ensures Closer(n, w, h, a, q)
  {
    CrossChain(Deviation(n, w, h, a), Deviation(n, w, h, b), Deviation(n, w, h, q), a, b, q);
  }

  /** `Closer` is a strict order: it is transitive. */
  lemma CloserTransitive(n: nat, w: int, h: int, a: nat, b: nat, q: nat)
    requires a >= 1 && b >= 1 && q >= 1
    requires Closer(n, w, h, a, b)
    requires Closer(n, w, h, b, q)
    ensures Closer(n, w, h, a, q)
  {
    CrossChain(Deviation(n, w, h, a), Deviation(n, w, h, b), Deviation(n, w, h, q), a, b, q);
  }

  /** Python's `total // parts` for a positive number of parts: the largest
      cell size that `parts` copies of fit in `total`. */
  function CellSize(total: int, parts: nat): (s: int)
    requires parts >= 1
    ensures s * parts <= total < (s + 1) * parts
  {
    var s := total / parts;
    assert total == parts * s + total % parts;
    assert (s + 1) * parts == s * parts + parts;
    s
  }

  /** `r` is what the loop keeps after trying `1..bound`: no candidate is
      strictly closer, and every smaller row count is strictly farther. */
  ghost predicate IsFirstBest(n: nat, w: int, h: int, bound: nat, r: nat)
  {
    && 1 <= r <= bound
    && (forall q :: 1 <= q <= bound ==> !Closer(n, w, h, q, r))
    && (forall q :: 1 <= q < r ==> Closer(n, w, h, r, q))
  }

  /** The row count the search loop ends with after trying `1..bound`. */
  function BestRows(n: nat, w: int, h: int, bound: nat): (r: nat)
    requires bound >= 1
    ensures IsFirstBest(n, w, h, bound, r)
    decreases bound
  {
    if bound == 1 then 1
    else
      var b := BestRows(n, w, h, bound - 1);
      if Closer(n, w, h, bound, b) then
        assert forall q :: 1 <= q < bound ==> Closer(n, w, h, bound, q) by {
          forall q | 1 <= q < bound
            ensures Closer(n, w, h, bound, q)
          {
            CloserThrough(n, w, h, bound, b, q);
          }
        }
        assert forall q :: 1 <= q <= bound ==> !Closer(n, w, h, q, bound) by {
          forall q | 1 <= q <= bound
            ensures !Closer(n, w, h, q, bound)
          {
            if Closer(n, w, h, q, bound) {
              CloserTransitive(n, w, h, q, bound, b);
            }
          }
        }
        bound
      else
        b
  }

  /** At most one row count is the first best: the tie-break is deterministic. */
  lemma FirstBestUnique(n: nat, w: int, h: int, bound: nat, r1: nat, r2: nat)
    requires IsFirstBest(n, w, h, bound, r1) && IsFirstBest(n, w, h, bound, r2)
    ensures r1 == r2
  {
    assert !Closer(n, w, h, r2, r1);
    assert !Closer(n, w, h, r1, r2);
  }

  /** The layout found by searching rows `1..bound`, with cells of
      `W // cols` by `H // rows` pixels. Python fails with
      `ZeroDivisionError` when `H == 0` (the target ratio) or `n == 0`
      (`cols` is 0 for one row and `W // 0` follows). */
  function SearchLayout(n: nat, w: int, h: int, bound: nat): (res: Result<Layout>)
    requires bound >= 1
    ensures res.Failure? <==> n == 0 || h == 0
    ensures res.Failure? ==> res.fault == ZeroDivision
    ensures res.Success? ==>
      var g := res.value;
      && IsFirstBest(n, w, h, bound, g.rows)
      && g.cols == Cols(n, g.rows) >= 1
      && g.rows * g.cols >= n
      && g.rows * (g.cols - 1) < n
      && g.cellWidth * g.cols <= w < (g.cellWidth + 1) * g.cols
      && g.cellHeight * g.rows <= h < (g.cellHeight + 1) * g.rows
  {
    if n == 0 || h == 0 then Failure(ZeroDivision)
    else
      var r := BestRows(n, w, h, bound);
      var c := Cols(n, r);
      Success(Layout(r, c, CellSize(w, c), CellSize(h, r)))
  }

  /** `calculate_optimal_grid(num_videos, W, H)`: the search over rows 1..19. */
  function OptimalGrid(n: nat, w: int, h: int): (res: Result<Layout>)
    ensures res.Failure? <==> n == 0 || h == 0
    ensures res.Success? ==>
      && 1 <= res.value.rows <= MaxRows
      && res.value.rows * res.value.cols >= n
      && IsFirstBest(n, w, h, MaxRows, res.value.rows)
  {
    SearchLayout(n, w, h, MaxRows)
  }

  /** An explicit `rows,cols` override: cells are `W // cols` by `H // rows`.
      A zero dimension raises `ZeroDivisionError` at once; a negative one
      leaves the row (or column) loop of the graph assembly empty and the
      script fails indexing it, so the override is usable only when both are
      positive. */
  function ForcedLayout(rows: int, cols: int, w: int, h: int): (res: Result<Layout>)
    ensures res.Success? <==> rows >= 1 && cols >= 1
    ensures rows == 0 || cols == 0 ==> res == Failure(ZeroDivision)
    ensures res.Success? ==>
      && res.value.rows == rows && res.value.cols == cols
      && res.value.cellWidth * cols <= w < (res.value.cellWidth + 1) * cols
      && res.value.cellHeight * rows <= h < (res.value.cellHeight + 1) * rows
  {
    if rows == 0 || cols == 0 then Failure(ZeroDivision)
    else if rows < 0 || cols < 0 then Failure(IndexError)
    else Success(Layout(rows, cols, CellSize(w, cols), CellSize(h, rows)))
  }

  /** The layout a grid script uses: the override when one is given,
      otherwise the search over rows 1..19. */
  function ChooseLayout(forced: Option<(int, int)>, n: nat, w: int, h: int): (res: Result<Layout>)
    ensures res.Success? ==> res.value.rows >= 1 && res.value.cols >= 1
    ensures forced.None? && res.Success? ==> res.value.rows * res.value.cols >= n
  {
    match forced
    case Some((rows, cols)) => ForcedLayout(rows, cols, w, h)
    case None => OptimalGrid(n, w, h)
  }

  /** The stand-alone script: 80 clips on a 1920x1080 canvas, rows 1..14. */
  function ScriptLayout(): Result<Layout>
  {
    SearchLayout(80, 1920, 1080, ScriptMaxRows)
  }

  /** The script recommends 7 rows of 12 columns with 160x154 cells. */
  lemma ScriptRecommendsSevenByTwelve()
    ensures ScriptLayout() == Success(Layout(7, 12, 160, 154))
  {
    assert BestRows(80, 1920, 1080, 1) == 1;
    assert BestRows(80, 1920, 1080, 2) == 2;
    assert BestRows(80, 1920, 1080, 3) == 3;
    assert BestRows(80, 1920, 1080, 4) == 4;
    assert BestRows(80, 1920, 1080, 5) == 5;
    assert BestRows(80, 1920, 1080, 6) == 6;
    assert BestRows(80, 1920, 1080, 7) == 7;
    assert BestRows(80, 1920, 1080, 8) == 7;
    assert BestRows(80, 1920, 1080, 9) == 7;
    assert BestRows(80, 1920, 1080, 10) == 7;
    assert BestRows(80, 1920, 1080, 11) == 7;
    assert BestRows(80, 1920, 1080, 12) == 7;
    assert BestRows(80, 1920, 1080, 13) == 7;
    assert BestRows(80, 1920, 1080, 14) == 7;
  }

  /** With 121 clips on a 1920x1080 canvas, 8 rows of 16 and 9 rows of 14 are
      exactly as far from `16/9` (by `2/9`); the exact search keeps 8 rows. */
  lemma ExactTieKeepsEightRows()
    ensures Cols(121, 8) == 16 && Cols(121, 9) == 14
    ensures RatioGap(121, 1920, 1080, 8) == RatioGap(121, 1920, 1080, 9) == 2.0 / 9.0
    ensures OptimalGrid(121, 1920, 1080) == Success(Layout(8, 16, 120, 135))
  {
    assert Deviation(121, 1920, 1080, 8) == 1920;
    assert Deviation(121, 1920, 1080, 9) == 2160;
    forall q | 1 <= q <= MaxRows
      ensures !Closer(121, 1920, 1080, q, 8)
      ensures q < 8 ==> Closer(121, 1920, 1080, 8, q)
    {
      RowsOf121(q);
    }
    assert IsFirstBest(121, 1920, 1080, MaxRows, 8);
    FirstBestUnique(121, 1920, 1080, MaxRows, 8, BestRows(121, 1920, 1080, MaxRows));
  }

  /** The deviation of each row count for 121 clips on 1920x1080. */
  lemma RowsOf121(q: nat)
    requires 1 <= q <= MaxRows
    ensures Deviation(121, 1920, 1080, q) * 8 >= 1920 * q
    ensures q < 8 ==> Deviation(121, 1920, 1080, q) * 8 > 1920 * q
  {
    if q == 1 {} else if q == 2 {} else if q == 3 {} else if q == 4 {}
    else if q == 5 {} else if q == 6 {} else if q == 7 {} else if q == 8 {}
    else if q == 9 {} else if q == 10 {} else if q == 11 {} else if q == 12 {}
    else if q == 13 {} else if q == 14 {} else if q == 15 {} else if q == 16 {}
    else if q == 17 {} else if q == 18 {} else {}
  }

  /** The spacing of doubles in `[1, 2)`. */
  const Ulp: real := 1.0 / 4503599627370496.0

  /** `k * Ulp` is the double nearest `x`, for `x` in `[1, 2)`. */
  predicate NearestDouble(x: real, k: int)
  {
    && 4503599627370496 <= k < 9007199254740992
    && RAbs(k as real * Ulp - x) < Ulp / 2.0
  }

  /** In doubles the tie above breaks the other way: `1920/1080` rounds down
      to `t` and `14/9` rounds up to `g`, both subtractions are exact, and
      `t - g < 2 - t`, so the script keeps 9 rows of 14. */
  lemma FloatsBreakTheTie()
    ensures NearestDouble(1920.0 / 1080.0, 8006399337547548)
    ensures NearestDouble(14.0 / 9.0, 7005599420354105)
    ensures var t, g := 8006399337547548 as real * Ulp, 7005599420354105 as real * Ulp;
      t - g < 2.0 - t
  {
  }
}
