/**
 * nico.ui.SearchResultPanelLayout: a flow layout for search results. Panels are laid out
 * left to right at their preferred sizes and wrap to a new row when the next one would
 * overflow the available width. Each panel is preceded by hgap and each row by vgap.
 * Panels are modelled by their preferred sizes.
 */
module SearchLayout {
  import opened Wrappers
  import opened Geometry

  /** The wrap rule: a panel starts a new row when it would end past the available width. */
  predicate Wraps(width: int, hgap: int, accWidth: int, d: Dim) {
    width < accWidth + hgap + d.width
  }

  /** The width a row takes: hgap before every panel, no gap after the last one. */
  function RowWidth(hgap: int, row: seq<Dim>): int {
    if row == [] then 0 else RowWidth(hgap, row[..|row| - 1]) + hgap + row[|row| - 1].width
  }

  /** The height of a row: its tallest panel, and 0 for an empty row. */
  function RowHeight(row: seq<Dim>): (h: int)
    ensures h >= 0
    ensures forall k :: 0 <= k < |row| ==> row[k].height <= h
  {
    if row == [] then 0 else Max(RowHeight(row[..|row| - 1]), row[|row| - 1].height)
  }

  /** The widest of some rows, 0 when there are none. */
  function MaxRowWidth(hgap: int, rows: seq<seq<Dim>>): (w: int)
    ensures w >= 0
    ensures forall k :: 0 <= k < |rows| ==> RowWidth(hgap, rows[k]) <= w
  {
    if rows == [] then 0 else Max(MaxRowWidth(hgap, rows[..|rows| - 1]), RowWidth(hgap, rows[|rows| - 1]))
  }

  /** The height some rows take: vgap above each one, plus the row's height. */
  function RowsHeight(vgap: int, rows: seq<seq<Dim>>): int {
    if rows == [] then 0 else RowsHeight(vgap, rows[..|rows| - 1]) + vgap + RowHeight(rows[|rows| - 1])
  }

  function Flatten(rows: seq<seq<Dim>>): seq<Dim> {
    if rows == [] then [] else Flatten(rows[..|rows| - 1]) + rows[|rows| - 1]
  }

  /** The rows so far: those closed by a wrap, and the open one (possibly empty). */
  datatype Flow = Flow(closed: seq<seq<Dim>>, open: seq<Dim>)

  /** Place one more panel: it either joins the open row or closes it and opens a new one. */
  function Step(width: int, hgap: int, f: Flow, d: Dim): Flow {
    if Wraps(width, hgap, RowWidth(hgap, f.open), d) then Flow(f.closed + [f.open], [d])
    else Flow(f.closed, f.open + [d])
  }

  /**
   * How the first n panels fall into rows. A first panel too wide for the available width
   * wraps at once, which closes an empty first row.
   */
  function RowsOf(width: int, hgap: int, ds: seq<Dim>, n: nat): Flow
    requires n <= |ds|
  {
    if n == 0 then Flow([], []) else Step(width, hgap, RowsOf(width, hgap, ds, n - 1), ds[n - 1])
  }

  /** How all the panels fall into rows. */
  function Rows(width: int, hgap: int, ds: seq<Dim>): Flow {
    RowsOf(width, hgap, ds, |ds|)
  }

  /** One step adds its panel at the end of the panels the rows hold. */
  lemma StepPartition(width: int, hgap: int, f: Flow, d: Dim)
    ensures Flatten(Step(width, hgap, f, d).closed) + Step(width, hgap, f, d).open == Flatten(f.closed) + f.open + [d]
  {
    if Wraps(width, hgap, RowWidth(hgap, f.open), d) {
      assert (f.closed + [f.open])[..|f.closed|] == f.closed;
    }
  }

  /** The rows of the first n panels hold exactly those panels, in order. */
  lemma {:induction false} RowsPartition(width: int, hgap: int, ds: seq<Dim>, n: nat)
    requires n <= |ds|
    ensures Flatten(RowsOf(width, hgap, ds, n).closed) + RowsOf(width, hgap, ds, n).open == ds[..n]
  {
    if n > 0 {
      RowsPartition(width, hgap, ds, n - 1);
      PartitionStep(width, hgap, ds, n);
    }
  }

  /** If the rows of the first n - 1 panels hold those panels, the rows of n hold n. */
  lemma PartitionStep(width: int, hgap: int, ds: seq<Dim>, n: nat)
    requires 0 < n <= |ds|
    requires Flatten(RowsOf(width, hgap, ds, n - 1).closed) + RowsOf(width, hgap, ds, n - 1).open == ds[..n - 1]
    ensures Flatten(RowsOf(width, hgap, ds, n).closed) + RowsOf(width, hgap, ds, n).open == ds[..n]
  {
    var f, g := RowsOf(width, hgap, ds, n - 1), RowsOf(width, hgap, ds, n);
    StepPartition(width, hgap, f, ds[n - 1]);
    PrefixSnoc(ds, n, Flatten(f.closed) + f.open, Flatten(g.closed) + g.open);
  }

  lemma PrefixSnoc(ds: seq<Dim>, n: nat, p: seq<Dim>, q: seq<Dim>)
    requires 0 < n <= |ds| && p == ds[..n - 1] && q == p + [ds[n - 1]]
    ensures q == ds[..n]
  {
    assert ds[..n] == ds[..n - 1] + [ds[n - 1]];
  }

  /** A row of at least two panels, or the very first panel, ends within the width. */
  predicate RowFits(width: int, hgap: int, row: seq<Dim>, first: bool) {
    (|row| > 1 || (first && |row| == 1)) ==> RowWidth(hgap, row) <= width
  }

  /**
   * The greedy shape of a list of rows: every row after the first starts with a panel that
   * did not fit after the row before it, and every row fits as far as RowFits says.
   */
  predicate GreedyRows(width: int, hgap: int, rows: seq<seq<Dim>>) {
    && (forall k :: 0 < k < |rows| ==> |rows[k]| > 0 && Wraps(width, hgap, RowWidth(hgap, rows[k - 1]), rows[k][0]))
    && (forall k :: 0 <= k < |rows| ==> RowFits(width, hgap, rows[k], k == 0))
  }

  /** The greedy shape of the rows, the open one last. */
  predicate Greedy(width: int, hgap: int, f: Flow) {
    GreedyRows(width, hgap, f.closed + [f.open])
  }

  /** A panel that does not fit after the last row opens a new row and keeps the shape. */
  lemma WrapGreedy(width: int, hgap: int, rows: seq<seq<Dim>>, d: Dim)
    requires GreedyRows(width, hgap, rows) && |rows| > 0
    requires Wraps(width, hgap, RowWidth(hgap, rows[|rows| - 1]), d)
    ensures GreedyRows(width, hgap, rows + [[d]])
  {
    var rows' := rows + [[d]];
    forall k | 0 < k < |rows'|
      ensures |rows'[k]| > 0 && Wraps(width, hgap, RowWidth(hgap, rows'[k - 1]), rows'[k][0])
    {
      assert rows'[k - 1] == rows[k - 1];
      if k < |rows| { assert rows'[k] == rows[k]; }
    }
    forall k | 0 <= k < |rows'| ensures RowFits(width, hgap, rows'[k], k == 0) {
      if k < |rows| { assert rows'[k] == rows[k]; }
    }
  }

  /** A panel that fits after the last row joins it and keeps the shape. */
  lemma JoinGreedy(width: int, hgap: int, rows: seq<seq<Dim>>, d: Dim)
    requires GreedyRows(width, hgap, rows) && |rows| > 0
    requires !Wraps(width, hgap, RowWidth(hgap, rows[|rows| - 1]), d)
    ensures GreedyRows(width, hgap, rows[..|rows| - 1] + [rows[|rows| - 1] + [d]])
  {
    var n := |rows|;
    var last := rows[n - 1];
    var row := last + [d];
    var rows' := rows[..n - 1] + [row];
    assert row[..|last|] == last;
    assert RowWidth(hgap, row) == RowWidth(hgap, last) + hgap + d.width;
    forall k | 0 < k < |rows'|
      ensures |rows'[k]| > 0 && Wraps(width, hgap, RowWidth(hgap, rows'[k - 1]), rows'[k][0])
    {
      assert rows'[k - 1] == rows[k - 1];
      if k < n - 1 {
        assert rows'[k] == rows[k];
      } else {
        assert rows'[k] == row && row[0] == last[0];
      }
    }
    forall k | 0 <= k < |rows'| ensures RowFits(width, hgap, rows'[k], k == 0) {
      if k < n - 1 { assert rows'[k] == rows[k]; }
    }
  }

  lemma StepGreedy(width: int, hgap: int, f: Flow, d: Dim)
    requires Greedy(width, hgap, f)
    ensures Greedy(width, hgap, Step(width, hgap, f, d))
  {
    var rows := f.closed + [f.open];
    assert rows[|rows| - 1] == f.open;
    if Wraps(width, hgap, RowWidth(hgap, f.open), d) {
      WrapGreedy(width, hgap, rows, d);
      assert Step(width, hgap, f, d).closed + [[d]] == rows + [[d]];
    } else {
      JoinGreedy(width, hgap, rows, d);
      assert rows[..|rows| - 1] == f.closed;
    }
  }

  lemma {:induction false} RowsGreedy(width: int, hgap: int, ds: seq<Dim>, n: nat)
    requires n <= |ds|
    ensures Greedy(width, hgap, RowsOf(width, hgap, ds, n))
  {
    if n == 0 {
      var f := RowsOf(width, hgap, ds, 0);
      assert f.closed + [f.open] == [[]];
    } else {
      RowsGreedy(width, hgap, ds, n - 1);
      StepGreedy(width, hgap, RowsOf(width, hgap, ds, n - 1), ds[n - 1]);
    }
  }

  /**
   * calcSizeWithRestriction(width): hgap plus the widest row closed by a wrap (the open row
   * is not counted), and the height of all rows plus a last vgap.
   */
  function CalcSize(width: int, hgap: int, vgap: int, ds: seq<Dim>): Dim {
    var f := Rows(width, hgap, ds);
    Dim(MaxRowWidth(hgap, f.closed) + hgap, RowsHeight(vgap, f.closed + [f.open]) + vgap)
  }

  /** How one step changes the four quantities calcSizeWithRestriction tracks. */
  lemma StepMeasures(width: int, hgap: int, vgap: int, f: Flow, d: Dim)
    ensures var g := Step(width, hgap, f, d);
            if Wraps(width, hgap, RowWidth(hgap, f.open), d) then
              && MaxRowWidth(hgap, g.closed) == Max(MaxRowWidth(hgap, f.closed), RowWidth(hgap, f.open))
              && RowsHeight(vgap, g.closed) == RowsHeight(vgap, f.closed) + vgap + RowHeight(f.open)
              && RowWidth(hgap, g.open) == hgap + d.width
              && RowHeight(g.open) == Max(0, d.height)
            else
              && g.closed == f.closed
              && RowWidth(hgap, g.open) == RowWidth(hgap, f.open) + hgap + d.width
              && RowHeight(g.open) == Max(RowHeight(f.open), d.height)
  {
    var g := Step(width, hgap, f, d);
    if Wraps(width, hgap, RowWidth(hgap, f.open), d) {
      assert g.closed[..|g.closed| - 1] == f.closed;
      assert [d][..0] == [];
    } else {
      assert g.open[..|g.open| - 1] == f.open;
    }
  }

  lemma RowsHeightSnoc(vgap: int, rows: seq<seq<Dim>>, row: seq<Dim>)
    ensures RowsHeight(vgap, rows + [row]) == RowsHeight(vgap, rows) + vgap + RowHeight(row)
  {
    assert (rows + [row])[..|rows|] == rows;
  }

  /** The four numbers calcSizeWithRestriction keeps while it walks the panels. */
  datatype Tally = Tally(maxWidth: int, accWidth: int, maxHeight: int, accHeight: int)

  /**
   * What the four numbers stand for: the widest closed row, the open row's width and
   * height, and the height of the closed rows.
   */
  function Measure(hgap: int, vgap: int, f: Flow): Tally {
    Tally(MaxRowWidth(hgap, f.closed), RowWidth(hgap, f.open), RowHeight(f.open), RowsHeight(vgap, f.closed))
  }

  /** One iteration of the loop on the four numbers. */
  function TallyStep(width: int, hgap: int, vgap: int, t: Tally, d: Dim): Tally {
    if width < t.accWidth + hgap + d.width then
      Tally(Max(t.maxWidth, t.accWidth), hgap + d.width, Max(0, d.height), t.accHeight + vgap + t.maxHeight)
    else
      Tally(t.maxWidth, t.accWidth + hgap + d.width, Max(t.maxHeight, d.height), t.accHeight)
  }

  /** The four numbers after the first n panels. */
  function TallyOf(width: int, hgap: int, vgap: int, ds: seq<Dim>, n: nat): Tally
    requires n <= |ds|
  {
    if n == 0 then Tally(0, 0, 0, 0) else TallyStep(width, hgap, vgap, TallyOf(width, hgap, vgap, ds, n - 1), ds[n - 1])
  }

  /** One iteration of the loop on the numbers is one step on the rows they measure. */
  lemma MeasureStep(width: int, hgap: int, vgap: int, f: Flow, d: Dim)
    ensures Measure(hgap, vgap, Step(width, hgap, f, d)) == TallyStep(width, hgap, vgap, Measure(hgap, vgap, f), d)
  {
    StepMeasures(width, hgap, vgap, f, d);
  }

  /** The loop's numbers are the measures of the rows the panels fall into. */
  lemma {:induction false} TallyMeaning(width: int, hgap: int, vgap: int, ds: seq<Dim>, n: nat)
    requires n <= |ds|
    ensures TallyOf(width, hgap, vgap, ds, n) == Measure(hgap, vgap, RowsOf(width, hgap, ds, n))
  {
    if n > 0 {
      var f := RowsOf(width, hgap, ds, n - 1);
      TallyMeaning(width, hgap, vgap, ds, n - 1);
      MeasureStep(width, hgap, vgap, f, ds[n - 1]);
    }
  }

  /** The loop of calcSizeWithRestriction. */
  method CalcSizeWithRestriction(width: int, hgap: int, vgap: int, ds: seq<Dim>) returns (r: Dim)
    ensures r == CalcSize(width, hgap, vgap, ds)
  {
    var maxWidth, accWidth, maxHeight, accHeight := 0, 0, 0, 0;
    var i := 0;
    while i < |ds|
      invariant 0 <= i <= |ds|
      invariant Tally(maxWidth, accWidth, maxHeight, accHeight) == TallyOf(width, hgap, vgap, ds, i)
    {
      var d := ds[i];
      if width < accWidth + hgap + d.width {
        maxWidth := if accWidth > maxWidth then accWidth else maxWidth;
        accHeight := accHeight + vgap + maxHeight;
        accWidth := 0;
        maxHeight := 0;
      }
      accWidth := accWidth + hgap + d.width;
      maxHeight := if d.height > maxHeight then d.height else maxHeight;
      i := i + 1;
    }
    CalcSizeByTally(width, hgap, vgap, ds);
    accHeight := accHeight + vgap + maxHeight;
    r := Dim(maxWidth + hgap, accHeight + vgap);
  }

  lemma CalcSizeByTally(width: int, hgap: int, vgap: int, ds: seq<Dim>)
    ensures var t := TallyOf(width, hgap, vgap, ds, |ds|);
            CalcSize(width, hgap, vgap, ds) == Dim(t.maxWidth + hgap, t.accHeight + vgap + t.maxHeight + vgap)
  {
    TallyMeaning(width, hgap, vgap, ds, |ds|);
    SizeByMeasure(hgap, vgap, RowsOf(width, hgap, ds, |ds|));
  }

  /** The size of finished rows, written in the four numbers that measure them. */
  lemma SizeByMeasure(hgap: int, vgap: int, f: Flow)
    ensures var t := Measure(hgap, vgap, f);
            Dim(MaxRowWidth(hgap, f.closed) + hgap, RowsHeight(vgap, f.closed + [f.open]) + vgap)
              == Dim(t.maxWidth + hgap, t.accHeight + vgap + t.maxHeight + vgap)
  {
    RowsHeightSnoc(vgap, f.closed, f.open);
  }

  /** The height of all rows, the open one included. */
  function FlowHeight(vgap: int, f: Flow): int {
    RowsHeight(vgap, f.closed + [f.open])
  }

  /** With a non-negative vgap, placing a panel never makes the rows lower. */
  lemma StepHeightGrows(width: int, hgap: int, vgap: int, f: Flow, d: Dim)
    requires vgap >= 0
    ensures FlowHeight(vgap, Step(width, hgap, f, d)) >= FlowHeight(vgap, f)
  {
    var g := Step(width, hgap, f, d);
    StepMeasures(width, hgap, vgap, f, d);
    RowsHeightSnoc(vgap, f.closed, f.open);
    RowsHeightSnoc(vgap, g.closed, g.open);
  }

  lemma {:induction false} RowsHeightGrows(width: int, hgap: int, vgap: int, ds: seq<Dim>, i: nat)
    requires vgap >= 0 && i <= |ds|
    ensures FlowHeight(vgap, RowsOf(width, hgap, ds, i)) <= FlowHeight(vgap, Rows(width, hgap, ds))
    decreases |ds| - i
  {
    if i < |ds| {
      StepHeightGrows(width, hgap, vgap, RowsOf(width, hgap, ds, i), ds[i]);
      RowsHeightGrows(width, hgap, vgap, ds, i + 1);
    }
  }

  /**
   * Where layoutContainer puts panel j, at (x, y) as the container's top-left inside its
   * insets: after the panels before it in its row and hgap, below the rows above it and
   * vgap, at its preferred size.
   */
  function Placement(width: int, hgap: int, vgap: int, x: int, y: int, ds: seq<Dim>, j: nat): Rect
    requires j < |ds|
  {
    PlaceAt(width, hgap, vgap, x, y, Measure(hgap, vgap, RowsOf(width, hgap, ds, j)), ds[j])
  }

  /**
   * Where a panel goes after rows measured by `t`: a wrap moves down by vgap and the open
   * row's height and back to the row's start; otherwise it follows the open row.
   */
  function PlaceAt(width: int, hgap: int, vgap: int, x: int, y: int, t: Tally, d: Dim): Rect {
    if Wraps(width, hgap, t.accWidth, d) then Rect(x + hgap, y + t.accHeight + vgap + t.maxHeight + vgap, d.width, d.height)
    else Rect(x + t.accWidth + hgap, y + t.accHeight + vgap, d.width, d.height)
  }

  /**
   * Every panel lies above the calculated preferred height less its final vgap, when the
   * panels are laid out in the order they were measured in.
   */
  lemma PlacementWithinHeight(width: int, hgap: int, vgap: int, x: int, y: int, ds: seq<Dim>, j: nat)
    requires j < |ds| && vgap >= 0
    ensures var p := Placement(width, hgap, vgap, x, y, ds, j);
            p.y + p.height + vgap <= y + CalcSize(width, hgap, vgap, ds).height
  {
    var after := RowsOf(width, hgap, ds, j + 1);
    StepMeasures(width, hgap, vgap, RowsOf(width, hgap, ds, j), ds[j]);
    assert ds[j] == after.open[|after.open| - 1] by {
      assert after.open == [ds[j]] || after.open == RowsOf(width, hgap, ds, j).open + [ds[j]];
    }
    RowsHeightSnoc(vgap, after.closed, after.open);
    RowsHeightGrows(width, hgap, vgap, ds, j + 1);
  }

  /**
   * Every panel either ends within the available width or starts its row at hgap: only a
   * panel wider than the width overflows, and it then sits alone at the start of a row.
   */
  lemma PlacementWithinWidth(width: int, hgap: int, vgap: int, x: int, y: int, ds: seq<Dim>, j: nat)
    requires j < |ds|
    ensures var p := Placement(width, hgap, vgap, x, y, ds, j);
            p.x + p.width <= x + width || p.x == x + hgap
  {
  }

  /** The bounds the loop of layoutContainer gives the first n panels. */
  function Placements(width: int, hgap: int, vgap: int, x: int, y: int, ds: seq<Dim>, n: nat): (r: seq<Rect>)
    requires n <= |ds|
    ensures |r| == n
  {
    if n == 0 then []
    else Placements(width, hgap, vgap, x, y, ds, n - 1) + [PlaceAt(width, hgap, vgap, x, y, TallyOf(width, hgap, vgap, ds, n - 1), ds[n - 1])]
  }

  lemma {:induction false} PlacementsAt(width: int, hgap: int, vgap: int, x: int, y: int, ds: seq<Dim>, n: nat, j: nat)
    requires j < n <= |ds|
    ensures Placements(width, hgap, vgap, x, y, ds, n)[j] == PlaceAt(width, hgap, vgap, x, y, TallyOf(width, hgap, vgap, ds, j), ds[j])
  {
    if j < n - 1 {
      PlacementsAt(width, hgap, vgap, x, y, ds, n - 1, j);
    }
  }

  lemma PlacementByTally(width: int, hgap: int, vgap: int, x: int, y: int, ds: seq<Dim>, j: nat)
    requires j < |ds|
    ensures Placement(width, hgap, vgap, x, y, ds, j) == PlaceAt(width, hgap, vgap, x, y, TallyOf(width, hgap, vgap, ds, j), ds[j])
  {
    TallyMeaning(width, hgap, vgap, ds, j);
  }

  /** The loop of layoutContainer over the panels in the order given. */
  method Place(width: int, hgap: int, vgap: int, x: int, y0: int, ps: seq<Dim>) returns (bounds: seq<Rect>)
    ensures |bounds| == |ps|
    ensures forall j :: 0 <= j < |ps| ==> bounds[j] == Placement(width, hgap, vgap, x, y0, ps, j)
  {
    bounds := [];
    var y := y0;
    var accWidth, maxHeight := 0, 0;
    var i := 0;
    while i < |ps|
      invariant 0 <= i <= |ps|
      invariant accWidth == TallyOf(width, hgap, vgap, ps, i).accWidth
      invariant maxHeight == TallyOf(width, hgap, vgap, ps, i).maxHeight
      invariant y == y0 + TallyOf(width, hgap, vgap, ps, i).accHeight
      invariant bounds == Placements(width, hgap, vgap, x, y0, ps, i)
    {
      var d := ps[i];
      if width < accWidth + hgap + d.width {
        y := y + vgap + maxHeight;
        accWidth := 0;
        maxHeight := 0;
      }
      bounds := bounds + [Rect(x + accWidth + hgap, y + vgap, d.width, d.height)];
      accWidth := accWidth + hgap + d.width;
      maxHeight := if d.height > maxHeight then d.height else maxHeight;
      i := i + 1;
    }
    forall j | 0 <= j < |ps| ensures bounds[j] == Placement(width, hgap, vgap, x, y0, ps, j) {
      PlacementsAt(width, hgap, vgap, x, y0, ps, |ps|, j);
      PlacementByTally(width, hgap, vgap, x, y0, ps, j);
    }
  }

  /** The widest panel, 0 when there is none. */
  function MaxWidth(ds: seq<Dim>): (w: int)
    ensures w >= 0 && forall k :: 0 <= k < |ds| ==> ds[k].width <= w
  {
    if ds == [] then 0 else Max(MaxWidth(ds[..|ds| - 1]), ds[|ds| - 1].width)
  }

  /** vgap above every panel, plus the panel's height. */
  function StackHeight(vgap: int, ds: seq<Dim>): int {
    if ds == [] then 0 else StackHeight(vgap, ds[..|ds| - 1]) + vgap + ds[|ds| - 1].height
  }

  /** minimumLayoutSize: one panel per row, as wide as the widest panel plus a gap on each side. */
  function MinimumSize(hgap: int, vgap: int, ds: seq<Dim>): Dim {
    Dim(hgap + MaxWidth(ds) + hgap, StackHeight(vgap, ds) + vgap)
  }

  /** The loop of minimumLayoutSize. */
  method MinimumLayoutSize(hgap: int, vgap: int, ds: seq<Dim>) returns (r: Dim)
    ensures r == MinimumSize(hgap, vgap, ds)
  {
    var maxWidth, accHeight := 0, 0;
    var i := 0;
    while i < |ds|
      invariant 0 <= i <= |ds|
      invariant maxWidth == MaxWidth(ds[..i]) && accHeight == StackHeight(vgap, ds[..i])
    {
      assert ds[..i + 1][..i] == ds[..i];
      var d := ds[i];
      maxWidth := if d.width > maxWidth then d.width else maxWidth;
      accHeight := accHeight + vgap + d.height;
      i := i + 1;
    }
    assert ds[..i] == ds;
    r := Dim(hgap + maxWidth + hgap, accHeight + vgap);
  }

  /**
   * When no panel fits beside another, the flow is one panel per row below an empty first
   * row, and its height is the minimum height plus that row's vgap.
   */
  lemma {:induction false} NarrowFlow(width: int, hgap: int, vgap: int, ds: seq<Dim>, n: nat)
    requires 0 < n <= |ds| && hgap >= 0
    requires forall k :: 0 <= k < |ds| ==> ds[k].width >= 0 && ds[k].height >= 0 && width < hgap + ds[k].width
    ensures RowsOf(width, hgap, ds, n).open == [ds[n - 1]]
    ensures FlowHeight(vgap, RowsOf(width, hgap, ds, n)) == vgap + StackHeight(vgap, ds[..n])
  {
    var f := RowsOf(width, hgap, ds, n - 1);
    if n == 1 {
      EmptyFlowHeight(vgap);
      assert ds[..0] == [];
    } else {
      NarrowFlow(width, hgap, vgap, ds, n - 1);
      LoneRow(hgap, ds[n - 2]);
    }
    // the open row before panel n - 1 is empty or holds one panel, so that panel wraps
    WrapStep(width, hgap, vgap, f, ds[n - 1]);
    StackLast(vgap, ds, n);
  }

  lemma EmptyFlowHeight(vgap: int)
    ensures FlowHeight(vgap, Flow([], [])) == vgap
  {
    var f := Flow([], []);
    var rows := f.closed + [f.open];
    assert rows[..0] == [] && rows[0] == [];
    assert RowsHeight(vgap, rows) == RowsHeight(vgap, rows[..0]) + vgap + RowHeight(rows[0]);
  }

  lemma LoneRow(hgap: int, e: Dim)
    ensures RowWidth(hgap, [e]) == hgap + e.width
  {
    assert [e][..0] == [];
  }

  lemma WrapStep(width: int, hgap: int, vgap: int, f: Flow, d: Dim)
    requires 0 <= RowWidth(hgap, f.open) && width < hgap + d.width && d.height >= 0
    ensures Step(width, hgap, f, d) == Flow(f.closed + [f.open], [d])
    ensures FlowHeight(vgap, Step(width, hgap, f, d)) == FlowHeight(vgap, f) + vgap + d.height
  {
    assert [d][..0] == [];
    RowsHeightSnoc(vgap, f.closed + [f.open], [d]);
  }

  lemma StackLast(vgap: int, ds: seq<Dim>, n: nat)
    requires 0 < n <= |ds|
    ensures StackHeight(vgap, ds[..n]) == StackHeight(vgap, ds[..n - 1]) + vgap + ds[n - 1].height
  {
    assert ds[..n][..n - 1] == ds[..n - 1];
  }

  /** The width layoutContainer lays out in: the width last set, else the container's, less the insets. */
  function AvailableWidth(layoutWidth: int, frame: Frame): int {
    (if layoutWidth > 0 then layoutWidth else frame.width) - frame.insets.left - frame.insets.right
  }

  class SearchResultPanelLayout {
    var hgap: int
    var vgap: int
    /** The width last given by setWidth; -1 once invalidated, 0 at first. */
    var width: int
    /** The cached preferred size; None stands for null. */
    var preferred: Option<Dim>

    constructor (hgap: int, vgap: int)
      ensures this.hgap == hgap && this.vgap == vgap && width == 0 && preferred == None
    {
      this.hgap := hgap;
      this.vgap := vgap;
      width := 0;
      preferred := None;
    }

    method SetHgap(hgap: int)
      modifies this`hgap
      ensures this.hgap == hgap
    {
      this.hgap := hgap;
    }

    method SetVgap(vgap: int)
      modifies this`vgap
      ensures this.vgap == vgap
    {
      this.vgap := vgap;
    }

    /**
     * What updateSize computes: the restricted size at the width last set if there is
     * one, else at the container's inner width if that is positive, else the minimum size.
     * The restricted size never fails, so the minimum is used exactly when neither width
     * is positive.
     */
    function UpdatedSize(target: Target): Dim
      reads this
    {
      if width > 0 then CalcSize(width, hgap, vgap, target.sizes)
      else if InnerWidth(target.frame) > 0 then CalcSize(InnerWidth(target.frame), hgap, vgap, target.sizes)
      else MinimumSize(hgap, vgap, target.sizes)
    }

    method UpdateSize(target: Target)
      modifies this`preferred
      ensures preferred == Some(UpdatedSize(target))
    {
      var sz: Option<Dim> := None;
      if width > 0 {
        var d := CalcSizeWithRestriction(width, hgap, vgap, target.sizes);
        sz := Some(d);
      }
      if sz.None? {
        var inner := target.frame.width - target.frame.insets.left - target.frame.insets.right;
        if inner > 0 {
          var d := CalcSizeWithRestriction(inner, hgap, vgap, target.sizes);
          sz := Some(d);
        }
      }
      if sz.None? {
        var d := MinimumLayoutSize(hgap, vgap, target.sizes);
        sz := Some(d);
      }
      preferred := sz;
    }

    /** setWidth: a positive width that differs from the current one is taken and the size recomputed. */
    method SetWidth(w: int, target: Target)
      modifies this`width, this`preferred
      ensures w > 0 && w != old(width) ==> width == w && preferred == Some(UpdatedSize(target))
      ensures !(w > 0 && w != old(width)) ==> width == old(width) && preferred == old(preferred)
    {
      if w > 0 && w != width {
        width := w;
        UpdateSize(target);
      }
    }

    /** addLayoutComponent and removeLayoutComponent: the cached preferred size is dropped. */
    method ComponentsChanged()
      modifies this`preferred
      ensures preferred == None
    {
      preferred := None;
    }

    /** invalidateLayout: the width is forgotten (the cached size is kept). */
    method InvalidateLayout()
      modifies this`width
      ensures width == -1
    {
      width := -1;
    }

    /** preferredLayoutSize (and maximumLayoutSize): the cached size, computed when missing. */
    method PreferredLayoutSize(target: Target) returns (d: Dim)
      modifies this`preferred
      ensures old(preferred).Some? ==> d == old(preferred).value && preferred == old(preferred)
      ensures old(preferred).None? ==> d == UpdatedSize(target) && preferred == Some(d)
    {
      if preferred.None? {
        UpdateSize(target);
      }
      d := preferred.value;
    }

    /**
     * layoutContainer: `sorted` is the container's panels' preferred sizes in the order of
     * the comparator with its origin set to the current time: the program that opens
     * closest to now comes first.
     */
    method LayoutContainer(frame: Frame, sorted: seq<Dim>) returns (bounds: seq<Rect>)
      ensures |bounds| == |sorted|
      ensures forall j :: 0 <= j < |sorted| ==>
                bounds[j] == Placement(AvailableWidth(width, frame), hgap, vgap, frame.insets.left, frame.insets.top, sorted, j)
    {
      bounds := Place(AvailableWidth(width, frame), hgap, vgap, frame.insets.left, frame.insets.top, sorted);
    }
  }
}
