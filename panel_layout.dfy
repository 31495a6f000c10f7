/**
 * nico.ui.PgmPanelLayout: the layout of one program panel. The title and description sit
 * on the left, with a fixed 64x64 thumbnail column on the right; the time, type and
 * member-only marks sit above the thumbnail, and the community line runs along the bottom.
 * The labels are multi-line: their preferred height depends on the width they are given,
 * and that dependency is an input here (Labels).
 */
module PanelLayout {
  import opened Wrappers
  import opened Geometry

  const PAD: int := 5
  const ICON_SIZE: Dim := Dim(64, 64)
  const MINI_ICON_SIZE: Dim := Dim(10, 10)
  const MINI_PAD: int := 3
  const MIN_LEFT_WIDTH: int := 64
  /** The point sizes of the time font (9) and of the community font (12). */
  const TIME_HEIGHT: int := 9
  const MIN_COMM_HEIGHT: int := 12
  const STD_UPPER_HEIGHT: int := TIME_HEIGHT + PAD + ICON_SIZE.height
  const MIN_WIDTH: int := PAD + MIN_LEFT_WIDTH + PAD + ICON_SIZE.width + PAD
  const MIN_HEIGHT: int := PAD + TIME_HEIGHT + PAD + ICON_SIZE.height + PAD + MIN_COMM_HEIGHT + PAD
  const MIN_SIZE: Dim := Dim(MIN_WIDTH, MIN_HEIGHT)

  /** The minimum size: 143 by 105. */
  function MinimumLayoutSize(): (d: Dim)
    ensures d == Dim(143, 105) && STD_UPPER_HEIGHT == 78
  {
    MIN_SIZE
  }

  /**
   * What the panel's labels report: the preferred height of the title, description and
   * community labels once given a width, and the result of calcSizeNoRestriction, whose
   * width-shrinking search over those labels is not modelled.
   */
  datatype Labels = Labels(titleHeight: int -> int, descHeight: int -> int, commHeight: int -> int, unrestricted: Dim)

  datatype Slot = Title | Icon | Desc | Comm | Time | Only | Type

  /** The order removeLayoutComponent tests the slots in. */
  const SLOT_ORDER: seq<Slot> := [Title, Icon, Desc, Comm, Time, Only, Type]

  type ComponentId = nat

  datatype Constraint = SlotConstraint(slot: Slot) | NotASlot
  datatype IllegalArgument = UnsupportedConstraints

  /**
   * calcSizeWithRestriction(width): None (null) when no room is left for the left column;
   * otherwise exactly `width` wide, and as tall as the pads, the upper part (the title and
   * description, at least STD_UPPER_HEIGHT) and the community line.
   */
  function CalcSizeWithRestriction(labels: Labels, width: int): (r: Option<Dim>)
    ensures r.None? <==> width - 79 <= 0
    ensures r.Some? ==> r.value.width == width
    ensures r.Some? ==> r.value.height >= PAD + STD_UPPER_HEIGHT + PAD + labels.commHeight(width - PAD - PAD) + PAD
  {
    var w := width - PAD - PAD - ICON_SIZE.width - PAD;
    if w > 0 then
      var h := Max(labels.titleHeight(w) + PAD + labels.descHeight(w), STD_UPPER_HEIGHT);
      Some(Dim(PAD + w + PAD + ICON_SIZE.width + PAD, PAD + h + PAD + labels.commHeight(width - PAD - PAD) + PAD))
    else None
  }

  /**
   * updateSize(): a fixed width and height both at least the minimum are taken as they are;
   * a fixed width alone gives the restricted size; otherwise the unrestricted size. The
   * result is then raised to the minimum size.
   */
  function ClampedSize(labels: Labels, width: int, height: int): (d: Dim)
    ensures d.width >= MIN_WIDTH && d.height >= MIN_HEIGHT
    ensures width >= MIN_WIDTH && height >= MIN_HEIGHT ==> d == Dim(width, height)
    ensures width >= MIN_WIDTH && height < MIN_HEIGHT ==>
              d == Dim(width, Max(CalcSizeWithRestriction(labels, width).value.height, MIN_HEIGHT))
    ensures width < MIN_WIDTH ==>
              d == Dim(Max(labels.unrestricted.width, MIN_WIDTH), Max(labels.unrestricted.height, MIN_HEIGHT))
  {
    var sz :=
      if width >= MIN_WIDTH && height >= MIN_HEIGHT then Some(Dim(width, height))
      else if width >= MIN_WIDTH then CalcSizeWithRestriction(labels, width)
      else Some(labels.unrestricted);
    var s := sz.GetOr(labels.unrestricted);
    Dim(Max(s.width, MIN_WIDTH), Max(s.height, MIN_HEIGHT))
  }

  /**
   * updateSize(target): as updateSize() when both fixed sizes are at least the minimum;
   * otherwise the restricted size at the fixed or container width less insets and pads,
   * which is NOT raised to the minimum; updateSize() when that gives nothing.
   */
  function TargetSize(labels: Labels, width: int, height: int, frame: Frame): (d: Dim)
    ensures width >= MIN_WIDTH && height >= MIN_HEIGHT ==> d == Dim(width, height)
    ensures !(width >= MIN_WIDTH && height >= MIN_HEIGHT) ==>
              var inner := (if width >= MIN_WIDTH then width else frame.width) - frame.insets.left - frame.insets.right - PAD - PAD;
              if inner - 79 > 0 then d.width == inner else d == ClampedSize(labels, width, height)
  {
    if width >= MIN_WIDTH && height >= MIN_HEIGHT then Dim(width, height)
    else
      var inner := (if width >= MIN_WIDTH then width else frame.width) - frame.insets.left - frame.insets.right - PAD - PAD;
      var sz := if inner > 0 then CalcSizeWithRestriction(labels, inner) else None;
      if sz.Some? then sz.value else ClampedSize(labels, width, height)
  }

  /** The first slot, in SLOT_ORDER, that holds comp. */
  function SlotOf(slots: map<Slot, ComponentId>, comp: ComponentId): (r: Option<Slot>)
    ensures r.Some? ==> r.value in slots && slots[r.value] == comp
    ensures r.None? <==> forall s :: s in slots ==> slots[s] != comp
    ensures forall k :: 0 <= k < |SLOT_ORDER| && r.Some? && SLOT_ORDER[k] in slots && slots[SLOT_ORDER[k]] == comp ==>
              r.value == SLOT_ORDER[k] || exists j :: 0 <= j < k && SLOT_ORDER[j] == r.value
  {
    var r := FirstHolding(slots, comp, 0);
    assert r.None? ==> forall s :: s in slots ==> slots[s] != comp by {
      if r.None? {
        forall s | s in slots ensures slots[s] != comp {
          assert SLOT_ORDER[Position(s)] == s;
        }
      }
    }
    r
  }

  /** Where a slot stands in SLOT_ORDER. */
  function Position(s: Slot): (k: nat)
    ensures k < |SLOT_ORDER| && SLOT_ORDER[k] == s
  {
    match s
    case Title => 0 case Icon => 1 case Desc => 2 case Comm => 3
    case Time => 4 case Only => 5 case Type => 6
  }

  function FirstHolding(slots: map<Slot, ComponentId>, comp: ComponentId, from: nat): (r: Option<Slot>)
    requires from <= |SLOT_ORDER|
    ensures r.Some? ==> r.value in slots && slots[r.value] == comp
    ensures r.Some? ==> exists j :: from <= j < |SLOT_ORDER| && SLOT_ORDER[j] == r.value &&
                          forall i :: from <= i < j ==> !(SLOT_ORDER[i] in slots && slots[SLOT_ORDER[i]] == comp)
    ensures r.None? <==> forall i :: from <= i < |SLOT_ORDER| ==> !(SLOT_ORDER[i] in slots && slots[SLOT_ORDER[i]] == comp)
    decreases |SLOT_ORDER| - from
  {
    if from == |SLOT_ORDER| then None
    else if SLOT_ORDER[from] in slots && slots[SLOT_ORDER[from]] == comp then Some(SLOT_ORDER[from])
    else FirstHolding(slots, comp, from + 1)
  }

  /** The bounds layoutContainer gives the panel's parts; `desc` is None when no room is left for it. */
  datatype PartBounds = PartBounds(typeMark: Rect, only: Option<Rect>, time: Rect, icon: Rect,
                                   comm: Rect, title: Rect, desc: Option<Rect>)

  /**
   * The placement layoutContainer computes for an inner area `width` by `height` (frame
   * less insets and pads) whose top-left is (ox, oy); None when width is not positive.
   * The thumbnail column is flush right and PAD right of the left column; the time label
   * ends at the right edge, MINI_PAD right of the type mark when there is no member-only
   * mark, but touching the member-only mark, with no gap, when there is one; the title and
   * description stay in the left column, the description below the title and ending at
   * least PAD above the bottom of that column.
   */
  function Parts(labels: Labels, width: int, height: int, ox: int, oy: int, withOnly: bool): (r: Option<PartBounds>)
    ensures r.Some? <==> width > 0
    ensures r.Some? ==>
            var p := r.value;
            && p.only.Some? == withOnly
            && p.icon.x + p.icon.width == ox + width
            && p.title.x == ox && p.title.x + p.title.width + PAD == p.icon.x
            && p.time.x + p.time.width == ox + width
            && (!withOnly ==> p.typeMark.x + p.typeMark.width + MINI_PAD == p.time.x)
            && (withOnly ==> p.only.value.x == p.typeMark.x + p.typeMark.width + MINI_PAD &&
                             p.time.x == p.only.value.x + p.only.value.width)
            && p.typeMark.x == p.icon.x
            && p.comm.width == width && p.comm.y + p.comm.height == PAD + height
            && (p.desc.Some? ==> p.desc.value.y == p.title.y + p.title.height &&
                                 p.desc.value.y + p.desc.value.height + PAD <= oy + TIME_HEIGHT + PAD + ICON_SIZE.height + PAD + Max(0, height - (TIME_HEIGHT + PAD + ICON_SIZE.height + PAD + labels.commHeight(width)) - PAD))
  {
    if width <= 0 then None
    else
      var leftWidth := width - PAD - ICON_SIZE.width;
      var typeMark := Rect(ox + leftWidth + PAD, oy, MINI_ICON_SIZE.width, MINI_ICON_SIZE.height);
      var only := if withOnly then Some(Rect(ox + leftWidth + PAD + MINI_ICON_SIZE.width + MINI_PAD, oy, MINI_ICON_SIZE.width, MINI_ICON_SIZE.height)) else None;
      var timeW := if withOnly then ICON_SIZE.width - MINI_ICON_SIZE.width - MINI_PAD - MINI_ICON_SIZE.width
                   else ICON_SIZE.width - MINI_ICON_SIZE.width - MINI_PAD;
      var time := Rect(ox + width - timeW, oy, timeW, TIME_HEIGHT);
      var icon := Rect(ox + leftWidth + PAD, oy + TIME_HEIGHT + PAD, ICON_SIZE.width, ICON_SIZE.height);
      var commPref := labels.commHeight(width);
      var restH := height - (TIME_HEIGHT + PAD + ICON_SIZE.height + PAD + commPref);
      var commH := commPref + (if restH < 0 then restH else 0);
      var comm := Rect(ox, PAD + height - commH, width, commH);
      var restH' := restH - PAD;
      var leftHeight := TIME_HEIGHT + PAD + ICON_SIZE.height + PAD + (if restH' > 0 then restH' else 0);
      var titlePref := labels.titleHeight(leftWidth);
      var leftRest := leftHeight - titlePref;
      var titleH := if leftRest > 0 then titlePref else leftHeight;
      var title := Rect(ox, oy, leftWidth, titleH);
      var leftRest' := leftRest - PAD;
      var descPref := labels.descHeight(leftWidth);
      var desc := if leftRest' > 0 then Some(Rect(ox, oy + titleH, leftWidth, if descPref > leftRest' then leftRest' else descPref)) else None;
      Some(PartBounds(typeMark, only, time, icon, comm, title, desc))
  }

  class PgmPanelLayout {
    var width: int
    var height: int
    var preferred: Option<Dim>
    var valid: bool
    var slots: map<Slot, ComponentId>

    constructor ()
      ensures width == 0 && height == 0 && preferred == None && !valid && slots == map[]
    {
      width, height := 0, 0;
      preferred := None;
      valid := false;
      slots := map[];
    }

    /** updateSize() */
    method UpdateSize(labels: Labels)
      modifies this`preferred
      ensures preferred == Some(ClampedSize(labels, width, height))
    {
      var sz: Option<Dim> := None;
      if width >= MIN_WIDTH && height >= MIN_HEIGHT {
        sz := Some(Dim(width, height));
      } else if width >= MIN_WIDTH && height < MIN_HEIGHT {
        sz := CalcSizeWithRestriction(labels, width);
      } else {
        sz := Some(labels.unrestricted);
      }
      if sz.None? {
        sz := Some(labels.unrestricted);
      }
      preferred := Some(Dim(Max(sz.value.width, MIN_WIDTH), Max(sz.value.height, MIN_HEIGHT)));
    }

    /** updateSize(target) */
    method UpdateSizeFor(labels: Labels, frame: Frame)
      modifies this`preferred
      ensures preferred == Some(TargetSize(labels, width, height, frame))
    {
      var sz: Option<Dim> := None;
      if width >= MIN_WIDTH && height >= MIN_HEIGHT {
        sz := Some(Dim(width, height));
      } else {
        var inner := (if width >= MIN_WIDTH then width else frame.width) - frame.insets.left - frame.insets.right - PAD - PAD;
        if inner > 0 {
          sz := CalcSizeWithRestriction(labels, inner);
        }
      }
      if sz.Some? {
        preferred := sz;
      } else {
        UpdateSize(labels);
      }
    }

    /** setWidth: a changed width recomputes the size and invalidates the layout. */
    method SetWidth(w: int, labels: Labels)
      modifies this`width, this`preferred, this`valid
      ensures w != old(width) ==> width == w && preferred == Some(ClampedSize(labels, w, height)) && !valid
      ensures w == old(width) ==> width == old(width) && preferred == old(preferred) && valid == old(valid)
    {
      if width != w {
        width := w;
        UpdateSize(labels);
        valid := false;
      }
    }

    /** setHeight: a changed height recomputes the size and invalidates the layout. */
    method SetHeight(h: int, labels: Labels)
      modifies this`height, this`preferred, this`valid
      ensures h != old(height) ==> height == h && preferred == Some(ClampedSize(labels, width, h)) && !valid
      ensures h == old(height) ==> height == old(height) && preferred == old(preferred) && valid == old(valid)
    {
      if height != h {
        height := h;
        UpdateSize(labels);
        valid := false;
      }
    }

    method NeedLayout()
      modifies this`valid
      ensures !valid
    {
      valid := false;
    }

    /** addLayoutComponent(comp, constraints): a slot takes the component; anything else is refused. */
    method AddLayoutComponent(comp: ComponentId, constraint: Constraint) returns (o: Outcome<IllegalArgument>)
      modifies this`slots
      ensures constraint.SlotConstraint? ==> o == Pass && slots == old(slots)[constraint.slot := comp]
      ensures constraint.NotASlot? ==> o == Fail(UnsupportedConstraints) && slots == old(slots)
    {
      if constraint.NotASlot? {
        return Fail(UnsupportedConstraints);
      }
      slots := slots[constraint.slot := comp];
      o := Pass;
    }

    /** removeLayoutComponent: only the first slot holding the component is cleared. */
    method RemoveLayoutComponent(comp: ComponentId)
      modifies this`slots
      ensures SlotOf(old(slots), comp).None? ==> slots == old(slots)
      ensures SlotOf(old(slots), comp).Some? ==> slots == old(slots) - {SlotOf(old(slots), comp).value}
    {
      var s := SlotOf(slots, comp);
      if s.Some? {
        slots := slots - {s.value};
      }
    }

    /** preferredLayoutSize (and maximumLayoutSize): recomputed unless cached, valid and with a width. */
    method PreferredLayoutSize(labels: Labels, frame: Frame) returns (d: Dim)
      modifies this`preferred
      ensures old(preferred).None? || !valid || width == 0 ==> d == TargetSize(labels, width, height, frame) && preferred == Some(d)
      ensures !(old(preferred).None? || !valid || width == 0) ==> d == old(preferred).value && preferred == old(preferred)
    {
      if preferred.None? || !valid || width == 0 {
        UpdateSizeFor(labels, frame);
      }
      d := preferred.value;
    }

    /**
     * layoutContainer: work is done only when the layout is invalid or has no width; the
     * layout is valid afterwards. The parts are placed in the fixed size when it is at
     * least the minimum, else in the container's size.
     */
    method LayoutContainer(labels: Labels, frame: Frame) returns (placed: Option<PartBounds>)
      requires {Title, Icon, Desc, Comm, Time, Type} <= slots.Keys
      modifies this`valid
      ensures valid
      ensures old(valid) && width != 0 ==> placed.None?
      ensures !old(valid) || width == 0 ==>
                placed == Parts(labels,
                                (if width >= MIN_WIDTH then width else frame.width) - frame.insets.left - frame.insets.right - PAD - PAD,
                                (if height >= MIN_HEIGHT then height else frame.height) - frame.insets.top - frame.insets.bottom - PAD - PAD,
                                frame.insets.left + PAD, frame.insets.top + PAD, Only in slots)
    {
      placed := None;
      if !valid || width == 0 {
        var w := (if width >= MIN_WIDTH then width else frame.width) - frame.insets.left - frame.insets.right - PAD - PAD;
        var h := (if height >= MIN_HEIGHT then height else frame.height) - frame.insets.top - frame.insets.bottom - PAD - PAD;
        placed := Parts(labels, w, h, frame.insets.left + PAD, frame.insets.top + PAD, Only in slots);
        valid := true;
      }
    }
  }
}
