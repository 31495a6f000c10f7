/**
 * nico.ui.AlertPanelLayout: the layout of an alert panel, a message above a row of
 * community icons. The icons are placed right to left along the bottom and hidden once
 * they would reach into the left indent. Components are identified by a number.
 */
module AlertLayout {
  import opened Wrappers
  import opened Geometry

  const PAD: int := 5
  const INDENT: int := 50
  const MIN_MSG_SIZE: Dim := Dim(69, 20)
  const ICON_SIZE: Dim := Dim(40, 40)
  const MIN_SIZE: Dim := Dim(PAD + MIN_MSG_SIZE.width + PAD,
                             PAD + MIN_MSG_SIZE.height + PAD + ICON_SIZE.height + PAD)

  /** minimumLayoutSize: always MIN_SIZE, which is 79 by 75. */
  function MinimumLayoutSize(): (d: Dim)
    ensures d == Dim(79, 75)
  {
    MIN_SIZE
  }

  type ComponentId = nat

  /** The constraint given with a component: one of the two slots, or something else. */
  datatype Constraint = MsgSlot | IconSlot | NotASlot

  /** IllegalArgumentException("Unsupported constraints: ..."). */
  datatype IllegalArgument = UnsupportedConstraints

  /** What layoutContainer does to one icon. */
  datatype IconState = Shown(bounds: Rect) | Hidden

  /** Where the i-th icon goes: i steps of ICON_SIZE.width + PAD left of the rightmost place, unless that is left of minX. */
  function IconPlacement(x0: int, y: int, minX: int, i: nat): IconState {
    var x := x0 - i * (ICON_SIZE.width + PAD);
    if minX <= x then Shown(Rect(x, y, ICON_SIZE.width, ICON_SIZE.height)) else Hidden
  }

  /** Once an icon is hidden, every later one is hidden too. */
  lemma HiddenStaysHidden(x0: int, y: int, minX: int, i: nat, j: nat)
    requires i <= j && IconPlacement(x0, y, minX, i).Hidden?
    ensures IconPlacement(x0, y, minX, j).Hidden?
  {
  }

  /** Shown icons never overlap: each lies PAD to the left of the one before it. */
  lemma ShownIconsApart(x0: int, y: int, minX: int, i: nat)
    requires IconPlacement(x0, y, minX, i + 1).Shown?
    ensures IconPlacement(x0, y, minX, i).Shown?
    ensures IconPlacement(x0, y, minX, i + 1).bounds.x + ICON_SIZE.width + PAD == IconPlacement(x0, y, minX, i).bounds.x
  {
  }

  /** Where c first occurs in s (ArrayList.indexOf), |s| when it does not. */
  function IndexOf(s: seq<ComponentId>, c: ComponentId): (i: nat)
    ensures i <= |s|
    ensures i < |s| <==> c in s
    ensures i < |s| ==> s[i] == c
    ensures forall k :: 0 <= k < i ==> s[k] != c
  {
    if s == [] then 0 else if s[0] == c then 0 else IndexOf(s[1..], c) + 1
  }

  /** ArrayList.remove(Object): the first occurrence of c leaves the list; nothing changes when there is none. */
  function RemoveFirst(s: seq<ComponentId>, c: ComponentId): (r: seq<ComponentId>)
    ensures c !in s ==> r == s
    ensures c in s ==> r == s[..IndexOf(s, c)] + s[IndexOf(s, c) + 1..]
  {
    var i := IndexOf(s, c);
    if i < |s| then s[..i] + s[i + 1..] else s
  }

  /** Removing takes away exactly one copy of c, and keeps the other components in order. */
  lemma RemoveFirstCounts(s: seq<ComponentId>, c: ComponentId)
    ensures c in s ==> multiset(RemoveFirst(s, c)) == multiset(s) - multiset{c}
    ensures |RemoveFirst(s, c)| == if c in s then |s| - 1 else |s|
  {
    if c in s {
      var i := IndexOf(s, c);
      assert s == s[..i] + [c] + s[i + 1..];
    }
  }

  class AlertPanelLayout {
    var targetWidth: int
    var targetHeight: int
    var preferred: Option<Dim>
    var msg: Option<ComponentId>
    var icons: seq<ComponentId>

    constructor ()
      ensures targetWidth == 0 && targetHeight == 0 && preferred == None && msg == None && icons == []
    {
      targetWidth, targetHeight := 0, 0;
      preferred := None;
      msg := None;
      icons := [];
    }

    /** addLayoutComponent(comp, constraints). */
    method AddLayoutComponent(comp: ComponentId, constraint: Constraint) returns (o: Outcome<IllegalArgument>)
      modifies this`msg, this`icons
      ensures constraint == MsgSlot ==> o == Pass && msg == Some(comp) && icons == old(icons)
      ensures constraint == IconSlot ==> o == Pass && msg == old(msg) && icons == old(icons) + [comp]
      ensures constraint == NotASlot ==> o == Fail(UnsupportedConstraints) && msg == old(msg) && icons == old(icons)
    {
      match constraint {
        case MsgSlot =>
          msg := Some(comp);
        case IconSlot =>
          icons := icons + [comp];
        case NotASlot =>
          return Fail(UnsupportedConstraints);
      }
      o := Pass;
    }

    /** removeLayoutComponent: the message is cleared, or else the first matching icon leaves the list. */
    method RemoveLayoutComponent(comp: ComponentId)
      modifies this`msg, this`icons
      ensures old(msg) == Some(comp) ==> msg == None && icons == old(icons)
      ensures old(msg) != Some(comp) ==> msg == old(msg) && icons == RemoveFirst(old(icons), comp)
    {
      if msg == Some(comp) {
        msg := None;
      } else {
        icons := RemoveFirst(icons, comp);
      }
    }

    /**
     * preferredLayoutSize (and maximumLayoutSize): recomputed when the inner size changed or
     * nothing is cached. The message is given the inner size less the pads and the icon row,
     * and `msgPreferred` says what preferred size it then reports.
     */
    method PreferredLayoutSize(frame: Frame, msgPreferred: Dim -> Dim) returns (d: Dim)
      requires msg.Some? || (targetWidth == InnerWidth(frame) && targetHeight == InnerHeight(frame) && preferred.Some?)
      modifies this`targetWidth, this`targetHeight, this`preferred
      ensures var w, h := InnerWidth(frame), InnerHeight(frame);
              if old(targetWidth) != w || old(targetHeight) != h || old(preferred).None? then
                var p := msgPreferred(Dim(w - PAD - PAD, h - PAD - PAD - ICON_SIZE.height));
                && targetWidth == w && targetHeight == h
                && preferred == Some(Dim(PAD + p.width + PAD, PAD + p.height + PAD + ICON_SIZE.height + PAD))
                && d == preferred.value
              else
                targetWidth == old(targetWidth) && targetHeight == old(targetHeight) &&
                preferred == old(preferred) && d == preferred.value
    {
      var w := frame.width - frame.insets.left - frame.insets.right;
      var h := frame.height - frame.insets.top - frame.insets.bottom;
      if targetWidth != w || targetHeight != h || preferred.None? {
        targetWidth := w;
        targetHeight := h;
        var p := msgPreferred(Dim(w - PAD - PAD, h - PAD - PAD - ICON_SIZE.height));
        preferred := Some(Dim(PAD + p.width + PAD, PAD + p.height + PAD + ICON_SIZE.height + PAD));
      }
      d := preferred.value;
    }

    /** The message's bounds: the whole inner area less the pads and the icon row. */
    static function MsgBounds(frame: Frame): Rect {
      Rect(frame.insets.left + PAD, frame.insets.top + PAD, InnerWidth(frame) - PAD - PAD,
           InnerHeight(frame) - PAD - PAD - ICON_SIZE.height)
    }

    /** The place of the rightmost icon, and the leftmost x an icon may start at. */
    static function IconRow(frame: Frame): (r: (int, int, int))
    {
      (frame.insets.left + PAD + (InnerWidth(frame) - PAD - PAD) - ICON_SIZE.width,
       frame.insets.top + PAD + (InnerHeight(frame) - PAD - PAD) - ICON_SIZE.height,
       frame.insets.left + PAD + INDENT)
    }

    /**
     * layoutContainer: the message fills the area above the icon row, and icon i is shown
     * at IconPlacement or hidden.
     */
    method LayoutContainer(frame: Frame) returns (msgBounds: Rect, placed: seq<IconState>)
      requires msg.Some?
      ensures msgBounds == MsgBounds(frame)
      ensures |placed| == |icons|
      ensures forall i :: 0 <= i < |icons| ==>
                placed[i] == IconPlacement(IconRow(frame).0, IconRow(frame).1, IconRow(frame).2, i)
    {
      var width := frame.width - frame.insets.left - frame.insets.right - PAD - PAD;
      var height := frame.height - frame.insets.top - frame.insets.bottom - PAD - PAD;
      var originX := frame.insets.left + PAD;
      var originY := frame.insets.top + PAD;
      msgBounds := Rect(originX, originY, width, height - ICON_SIZE.height);
      var x0 := originX + width - ICON_SIZE.width;
      var x := x0;
      var y := originY + height - ICON_SIZE.height;
      var minX := originX + INDENT;
      ghost var shown := 0;
      placed := [];
      for i := 0 to |icons|
        invariant |placed| == i && 0 <= shown <= i
        invariant x == x0 - shown * (ICON_SIZE.width + PAD)
        invariant shown < i ==> x < minX
        invariant forall k :: 0 <= k < i ==> placed[k] == IconPlacement(x0, y, minX, k)
      {
        if minX <= x {
          placed := placed + [Shown(Rect(x, y, ICON_SIZE.width, ICON_SIZE.height))];
          x := x - (ICON_SIZE.width + PAD);
          shown := shown + 1;
        } else {
          placed := placed + [Hidden];
        }
      }
    }
  }

  /**
   * The layout's geometry: the message ends where the icon row begins; a shown icon starts
   * no further left than INDENT past the left pad, ends PAD inside the right inset and sits
   * PAD above the bottom inset.
   */
  lemma LayoutGeometry(frame: Frame, i: nat)
    ensures var m := AlertPanelLayout.MsgBounds(frame);
            m.y + m.height == AlertPanelLayout.IconRow(frame).1
    ensures var (x0, y, minX) := AlertPanelLayout.IconRow(frame);
            var p := IconPlacement(x0, y, minX, i);
            p.Shown? ==>
              && frame.insets.left + PAD + INDENT <= p.bounds.x
              && p.bounds.x + p.bounds.width <= frame.width - frame.insets.right - PAD
              && p.bounds.y + p.bounds.height == frame.height - frame.insets.bottom - PAD
  {
  }
}
