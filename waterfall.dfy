/**
 * nico.ui.WaterfallPanel: a horizontally scrolling row of equally wide columns (one per
 * program list), with the WaterfallLayout that places them and moveComponent, which
 * reorders them.
 */
module Waterfall {
  import opened Wrappers
  import opened Geometry

  const DEFAULT_COMPONENT_WIDTH: int := 250

  /** A column of the panel: an identity and its current preferred and minimum sizes. */
  datatype Column = Column(id: nat, preferred: Dim, minimum: Dim)

  /** The tallest of some heights, 0 when there are none. */
  function MaxHeight(hs: seq<int>): (h: int)
    ensures h >= 0 && forall k :: 0 <= k < |hs| ==> hs[k] <= h
    ensures |hs| > 0 ==> h == 0 || exists k :: 0 <= k < |hs| && hs[k] == h
  {
    if hs == [] then 0 else Max(MaxHeight(hs[..|hs| - 1]), hs[|hs| - 1])
  }

  function PreferredHeights(cs: seq<Column>): (hs: seq<int>)
    ensures |hs| == |cs| && forall k :: 0 <= k < |cs| ==> hs[k] == cs[k].preferred.height
  {
    seq(|cs|, k requires 0 <= k < |cs| => cs[k].preferred.height)
  }

  function MinimumHeights(cs: seq<Column>): (hs: seq<int>)
    ensures |hs| == |cs| && forall k :: 0 <= k < |cs| ==> hs[k] == cs[k].minimum.height
  {
    seq(|cs|, k requires 0 <= k < |cs| => cs[k].minimum.height)
  }

  /** The loop of preferredLayoutSize and minimumLayoutSize: one column width per column, the tallest height. */
  method RowSize(componentWidth: int, hs: seq<int>) returns (r: Dim)
    ensures r == Dim(|hs| * componentWidth, MaxHeight(hs))
  {
    var w, h := 0, 0;
    for i := 0 to |hs|
      invariant w == i * componentWidth && h == MaxHeight(hs[..i])
    {
      assert hs[..i + 1][..i] == hs[..i];
      w := w + componentWidth;
      h := Max(h, hs[i]);
    }
    assert hs[..|hs|] == hs;
    r := Dim(w, h);
  }

  /** The failures of moveComponent: getComponent(from) out of range, or add(c, to) at an illegal position. */
  datatype MoveError = NoSuchComponent | IllegalPosition

  /** s with x inserted at position i (List.add(index, x)). */
  function InsertAt<T>(s: seq<T>, i: nat, x: T): (r: seq<T>)
    requires i <= |s|
    ensures |r| == |s| + 1 && r[i] == x
    ensures r[..i] == s[..i] && r[i + 1..] == s[i..]
  {
    s[..i] + [x] + s[i..]
  }

  /** s without position i (List.remove(index)). */
  function RemoveAt<T>(s: seq<T>, i: nat): (r: seq<T>)
    requires i < |s|
    ensures |r| == |s| - 1
    ensures r[..i] == s[..i] && r[i..] == s[i + 1..]
  {
    s[..i] + s[i + 1..]
  }

  /** Where `to` puts the moved column among the n - 1 that stay: -1 means at the end. */
  function Destination(n: nat, to: int): int {
    if to == -1 then n - 1 else to
  }

  /**
   * The effect of moveComponent(from, to) on the sequence of columns, and its outcome: an
   * unknown `from` changes nothing; an illegal `to` (Container.add accepts -1 up to the
   * number of remaining columns) leaves the column removed.
   */
  function Moved(cs: seq<Column>, from: int, to: int): (r: (seq<Column>, Outcome<MoveError>)) {
    if !(0 <= from < |cs|) then (cs, Fail(NoSuchComponent))
    else
      var rest := RemoveAt(cs, from);
      if !(-1 <= to <= |rest|) then (rest, Fail(IllegalPosition))
      else (InsertAt(rest, Destination(|cs|, to), cs[from]), Pass)
  }

  /**
   * A legal move is a permutation: the same columns, the moved one at its destination,
   * and the others in their original relative order.
   */
  lemma MoveIsPermutation(cs: seq<Column>, from: int, to: int)
    requires 0 <= from < |cs| && -1 <= to <= |cs| - 1
    ensures var (r, o) := Moved(cs, from, to);
            && o == Pass
            && multiset(r) == multiset(cs)
            && r[Destination(|cs|, to)] == cs[from]
            && RemoveAt(r, Destination(|cs|, to)) == RemoveAt(cs, from)
  {
    var rest := RemoveAt(cs, from);
    var d := Destination(|cs|, to);
    var r := InsertAt(rest, d, cs[from]);
    assert cs == cs[..from] + [cs[from]] + cs[from + 1..];
    assert rest == cs[..from] + cs[from + 1..];
    assert r == rest[..d] + [cs[from]] + rest[d..];
    assert rest == rest[..d] + rest[d..];
    calc {
      multiset(r);
      multiset(rest[..d]) + multiset{cs[from]} + multiset(rest[d..]);
      multiset(rest) + multiset{cs[from]};
      multiset(cs[..from]) + multiset(cs[from + 1..]) + multiset{cs[from]};
      multiset(cs);
    }
    assert RemoveAt(r, d) == r[..d] + r[d + 1..];
  }

  /** An illegal destination loses the column: one fewer column, the moved one gone from its place. */
  lemma IllegalMoveLosesColumn(cs: seq<Column>, from: int, to: int)
    requires 0 <= from < |cs| && !(-1 <= to <= |cs| - 1)
    ensures var (r, o) := Moved(cs, from, to);
            o == Fail(IllegalPosition) && r == RemoveAt(cs, from) && |r| == |cs| - 1
  {
  }

  class WaterfallLayout {
    var componentWidth: int

    constructor ()
      ensures componentWidth == DEFAULT_COMPONENT_WIDTH
    {
      componentWidth := DEFAULT_COMPONENT_WIDTH;
    }

    method SetComponentWidth(width: int)
      modifies this
      ensures componentWidth == width
    {
      componentWidth := width;
    }

    /** preferredLayoutSize (and maximumLayoutSize): the columns side by side, as tall as the tallest. */
    method PreferredLayoutSize(cs: seq<Column>) returns (d: Dim)
      ensures d == Dim(|cs| * componentWidth, MaxHeight(PreferredHeights(cs)))
    {
      d := RowSize(componentWidth, PreferredHeights(cs));
    }

    /** minimumLayoutSize: the same width, the tallest minimum height. */
    method MinimumLayoutSize(cs: seq<Column>) returns (d: Dim)
      ensures d == Dim(|cs| * componentWidth, MaxHeight(MinimumHeights(cs)))
    {
      d := RowSize(componentWidth, MinimumHeights(cs));
    }

    /**
     * layoutContainer: column i at (i * componentWidth, 0), one column width wide and as
     * tall as the inner height; the insets do not shift the columns.
     */
    method LayoutContainer(frame: Frame, n: nat) returns (bounds: seq<Rect>)
      ensures |bounds| == n
      ensures forall i :: 0 <= i < n ==> bounds[i] == Rect(i * componentWidth, 0, componentWidth, InnerHeight(frame))
    {
      var height := frame.height - frame.insets.top - frame.insets.bottom;
      bounds := [];
      var x := 0;
      for i := 0 to n
        invariant |bounds| == i && x == i * componentWidth
        invariant forall k :: 0 <= k < i ==> bounds[k] == Rect(k * componentWidth, 0, componentWidth, height)
      {
        bounds := bounds + [Rect(x, 0, componentWidth, height)];
        x := x + componentWidth;
      }
    }
  }

  class WaterfallPanel {
    const layout: WaterfallLayout
    var components: seq<Column>

    constructor ()
      ensures fresh(layout) && layout.componentWidth == DEFAULT_COMPONENT_WIDTH && components == []
    {
      layout := new WaterfallLayout();
      components := [];
    }

    method SetComponentWidth(width: int)
      modifies layout
      ensures layout.componentWidth == width
    {
      layout.SetComponentWidth(width);
    }

    /** getScrollableUnitIncrement and getScrollableBlockIncrement: one column width, whatever the direction. */
    function ScrollIncrement(orientation: int, direction: int): (r: int)
      reads layout
      ensures r == layout.componentWidth
    {
      layout.componentWidth
    }

    /** moveComponent(from, to): getComponent(from), remove(from), add(c, to). */
    method MoveComponent(from: int, to: int) returns (o: Outcome<MoveError>)
      modifies this`components
      ensures (components, o) == Moved(old(components), from, to)
    {
      if !(0 <= from < |components|) {
        return Fail(NoSuchComponent);
      }
      var c := components[from];
      components := RemoveAt(components, from);
      if !(-1 <= to <= |components|) {
        return Fail(IllegalPosition);
      }
      var at := if to == -1 then |components| else to;
      components := InsertAt(components, at, c);
      o := Pass;
    }
  }
}
