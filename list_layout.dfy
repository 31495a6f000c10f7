/**
 * nico.ui.PgmListLayout: the layout of a program list, a single column of program panels,
 * all as wide as the list, each followed by a 2-pixel separator.
 */
module ListLayout {
  import opened Wrappers
  import opened Geometry

  const SEPARATOR_THICKNESS: int := 2

  /**
   * A program panel as the list sees it: its current preferred and minimum sizes, and the
   * preferred height it reports once its width has been set to a given value.
   */
  datatype Item = Item(preferred: Dim, minimum: Dim, heightAt: int -> int)

  /** The list panel: its frame and its panels in container order. */
  datatype ListTarget = ListTarget(frame: Frame, items: seq<Item>)

  /** The sum of the heights, each followed by a separator. */
  function StackHeight(hs: seq<int>): int {
    if hs == [] then 0 else StackHeight(hs[..|hs| - 1]) + hs[|hs| - 1] + SEPARATOR_THICKNESS
  }

  function SumWidths(ds: seq<Dim>): int {
    if ds == [] then 0 else SumWidths(ds[..|ds| - 1]) + ds[|ds| - 1].width
  }

  function Heights(ds: seq<Dim>): (hs: seq<int>)
    ensures |hs| == |ds| && forall k :: 0 <= k < |ds| ==> hs[k] == ds[k].height
  {
    seq(|ds|, k requires 0 <= k < |ds| => ds[k].height)
  }

  /** The preferred height of every panel once its width is w. */
  function HeightsAt(items: seq<Item>, w: int): (hs: seq<int>)
    ensures |hs| == |items| && forall k :: 0 <= k < |items| ==> hs[k] == items[k].heightAt(w)
  {
    seq(|items|, k requires 0 <= k < |items| => items[k].heightAt(w))
  }

  function Preferreds(items: seq<Item>): (ds: seq<Dim>)
    ensures |ds| == |items| && forall k :: 0 <= k < |items| ==> ds[k] == items[k].preferred
  {
    seq(|items|, k requires 0 <= k < |items| => items[k].preferred)
  }

  function Minima(items: seq<Item>): (ds: seq<Dim>)
    ensures |ds| == |items| && forall k :: 0 <= k < |items| ==> ds[k] == items[k].minimum
  {
    seq(|items|, k requires 0 <= k < |items| => items[k].minimum)
  }

  /** Lying the panels side by side in width and stacking them in height (with separators). */
  function SideBySide(ds: seq<Dim>): Dim {
    Dim(SumWidths(ds), StackHeight(Heights(ds)))
  }

  /** The loop shared by calcSizeNoRestriction and minimumLayoutSize. */
  method SumSizes(ds: seq<Dim>) returns (r: Dim)
    ensures r == SideBySide(ds)
  {
    var w, h := 0, 0;
    for i := 0 to |ds|
      invariant w == SumWidths(ds[..i]) && h == StackHeight(Heights(ds[..i]))
    {
      assert ds[..i + 1][..i] == ds[..i];
      assert Heights(ds[..i + 1])[..i] == Heights(ds[..i]);
      w := w + ds[i].width;
      h := h + ds[i].height + SEPARATOR_THICKNESS;
    }
    assert ds[..|ds|] == ds;
    r := Dim(w, h);
  }

  /** calcSizeWithRestriction: every panel set to `width`, stacked. */
  method CalcSizeWithRestriction(width: int, items: seq<Item>) returns (r: Dim)
    ensures r == Dim(width, StackHeight(HeightsAt(items, width)))
  {
    var h := 0;
    for i := 0 to |items|
      invariant h == StackHeight(HeightsAt(items[..i], width))
    {
      assert HeightsAt(items[..i + 1], width)[..i] == HeightsAt(items[..i], width);
      h := h + items[i].heightAt(width) + SEPARATOR_THICKNESS;
    }
    assert items[..|items|] == items;
    r := Dim(width, h);
  }

  /** The top of panel j in a stack that starts at y0: the heights and separators above it. */
  function StackTop(y0: int, hs: seq<int>, j: nat): int
    requires j <= |hs|
  {
    y0 + StackHeight(hs[..j])
  }

  /** layoutContainer's loop: each panel gets the list's width at its preferred height, below the previous one and a separator. */
  method Stack(x: int, y0: int, width: int, items: seq<Item>) returns (bounds: seq<Rect>)
    ensures |bounds| == |items|
    ensures forall j :: 0 <= j < |items| ==>
              bounds[j] == Rect(x, StackTop(y0, HeightsAt(items, width), j), width, items[j].heightAt(width))
  {
    ghost var hs := HeightsAt(items, width);
    bounds := [];
    var y := y0;
    for i := 0 to |items|
      invariant |bounds| == i && y == StackTop(y0, hs, i)
      invariant forall j :: 0 <= j < i ==> bounds[j] == Rect(x, StackTop(y0, hs, j), width, hs[j])
    {
      assert hs[..i + 1][..i] == hs[..i];
      var h := items[i].heightAt(width);
      bounds := bounds + [Rect(x, y, width, h)];
      y := y + h + SEPARATOR_THICKNESS;
    }
  }

  /** The stack leaves no gap and no overlap: each panel starts a separator below the one before it. */
  lemma StackIsTight(y0: int, hs: seq<int>, j: nat)
    requires 0 < j < |hs|
    ensures StackTop(y0, hs, j) == StackTop(y0, hs, j - 1) + hs[j - 1] + SEPARATOR_THICKNESS
  {
    assert hs[..j][..j - 1] == hs[..j - 1];
  }

  class PgmListLayout {
    var width: int
    var minimum: Option<Dim>
    var preferred: Option<Dim>

    constructor ()
      ensures width == 0 && minimum == None && preferred == None
    {
      width := 0;
      minimum := None;
      preferred := None;
    }

    /**
     * updateSize: the restricted size at the width last set, else at the container's inner
     * width if positive, else the panels' preferred sizes side by side.
     */
    function UpdatedSize(target: ListTarget): Dim
      reads this
    {
      if width > 0 then Dim(width, StackHeight(HeightsAt(target.items, width)))
      else if InnerWidth(target.frame) > 0 then
        Dim(InnerWidth(target.frame), StackHeight(HeightsAt(target.items, InnerWidth(target.frame))))
      else SideBySide(Preferreds(target.items))
    }

    method UpdateSize(target: ListTarget)
      modifies this`preferred
      ensures preferred == Some(UpdatedSize(target))
    {
      var sz: Option<Dim> := None;
      if width > 0 {
        var d := CalcSizeWithRestriction(width, target.items);
        sz := Some(d);
      }
      if sz.None? {
        var inner := target.frame.width - target.frame.insets.left - target.frame.insets.right;
        if inner > 0 {
          var d := CalcSizeWithRestriction(inner, target.items);
          sz := Some(d);
        }
      }
      if sz.None? {
        var d := SumSizes(Preferreds(target.items));
        sz := Some(d);
      }
      preferred := sz;
    }

    /** setWidth: a positive width that differs from the current one is taken and the size recomputed. */
    method SetWidth(w: int, target: ListTarget)
      modifies this`width, this`preferred
      ensures w > 0 && w != old(width) ==> width == w && preferred == Some(UpdatedSize(target))
      ensures !(w > 0 && w != old(width)) ==> width == old(width) && preferred == old(preferred)
    {
      if w > 0 && w != width {
        width := w;
        UpdateSize(target);
      }
    }

    /** minimumLayoutSize: computed from the panels' minimum sizes the first time, then cached for good. */
    method MinimumLayoutSize(target: ListTarget) returns (d: Dim)
      modifies this`minimum
      ensures old(minimum).Some? ==> d == old(minimum).value && minimum == old(minimum)
      ensures old(minimum).None? ==> d == SideBySide(Minima(target.items)) && minimum == Some(d)
    {
      if minimum.None? {
        var m := SumSizes(Minima(target.items));
        minimum := Some(m);
      }
      d := minimum.value;
    }

    /** preferredLayoutSize (and maximumLayoutSize): the cached size, computed when missing. */
    method PreferredLayoutSize(target: ListTarget) returns (d: Dim)
      modifies this`preferred
      ensures old(preferred).Some? ==> d == old(preferred).value && preferred == old(preferred)
      ensures old(preferred).None? ==> d == UpdatedSize(target) && preferred == Some(d)
    {
      if preferred.None? {
        UpdateSize(target);
      }
      d := preferred.value;
    }

    /** invalidateLayout: only the preferred size is dropped; the width and the minimum stay. */
    method InvalidateLayout()
      modifies this`preferred
      ensures preferred == None
    {
      preferred := None;
    }

    /**
     * layoutContainer: `sorted` is the container's panels in the order of the comparator
     * with its origin set to the current time (the program that opens closest to now
     * first); they are stacked at the list's width from the top inset down.
     */
    method LayoutContainer(frame: Frame, sorted: seq<Item>) returns (bounds: seq<Rect>)
      ensures var w := (if width > 0 then width else frame.width) - frame.insets.left - frame.insets.right;
              && |bounds| == |sorted|
              && forall j :: 0 <= j < |sorted| ==>
                   bounds[j] == Rect(frame.insets.left, StackTop(frame.insets.top, HeightsAt(sorted, w), j), w, sorted[j].heightAt(w))
    {
      var w := (if width > 0 then width else frame.width) - frame.insets.left - frame.insets.right;
      bounds := Stack(frame.insets.left, frame.insets.top, w, sorted);
    }
  }

  /**
   * Laid out at the width it was measured at, in the order it was measured in, the stack
   * ends exactly at the restricted height below its top.
   */
  lemma LayoutFillsRestrictedHeight(items: seq<Item>, width: int, y0: int)
    requires |items| > 0
    ensures var hs := HeightsAt(items, width);
            StackTop(y0, hs, |items| - 1) + items[|items| - 1].heightAt(width) + SEPARATOR_THICKNESS ==
            y0 + StackHeight(hs)
  {
    var hs := HeightsAt(items, width);
    assert hs[..|hs|] == hs;
    assert hs[..|hs|][..|hs| - 1] == hs[..|hs| - 1];
  }
}
