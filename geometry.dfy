/** java.awt value types as the layout managers use them: sizes, insets and rectangles in pixels. */
module Geometry {

  /** java.awt.Dimension */
  datatype Dim = Dim(width: int, height: int)

  /** java.awt.Insets */
  datatype Insets = Insets(top: int, left: int, bottom: int, right: int)

  /** The arguments of one Component.setBounds(x, y, width, height) call. */
  datatype Rect = Rect(x: int, y: int, width: int, height: int)

  /** The part of a container that a layout manager reads: its insets and its current size. */
  datatype Frame = Frame(insets: Insets, width: int, height: int)

  /**
   * A container as a layout manager sees it: its frame and the sizes of its components in
   * container order (preferred sizes unless a layout says otherwise).
   */
  datatype Target = Target(frame: Frame, sizes: seq<Dim>)

  /** Width of the container less its left and right insets. */
  function InnerWidth(f: Frame): (r: int)
    ensures r + f.insets.left + f.insets.right == f.width
  {
    f.width - f.insets.left - f.insets.right
  }

  /** Height of the container less its top and bottom insets. */
  function InnerHeight(f: Frame): (r: int)
    ensures r + f.insets.top + f.insets.bottom == f.height
  {
    f.height - f.insets.top - f.insets.bottom
  }

  function Max(a: int, b: int): (r: int)
    ensures r >= a && r >= b && (r == a || r == b)
  {
    if a >= b then a else b
  }
}
