/**
 * nico.ui.AlertPanel: the body of a desktop alert, a message above a row of 40x40 icons.
 * Panels are pooled: dispose() does not destroy a panel but pushes it onto a shared
 * stack, and create() pops the most recently disposed one before building a new one.
 */
module AlertPopup {
  import opened Images
  import AlertLayout

  /** The panel's children: the message label, and one icon label per image. */
  datatype Child = MessageLabel | IconLabel(image: Image)

  /** The scaled copy (Image.getScaledInstance at ICON_SIZE) shown for each icon, in order. */
  function ScaledIcons(icons: seq<Image>): (r: seq<Image>)
    ensures |r| == |icons|
    ensures forall k :: 0 <= k < |icons| ==>
              r[k] == Scaled(icons[k], AlertLayout.ICON_SIZE.width, AlertLayout.ICON_SIZE.height)
  {
    seq(|icons|, k requires 0 <= k < |icons| => Scaled(icons[k], AlertLayout.ICON_SIZE.width, AlertLayout.ICON_SIZE.height))
  }

  function IconLabels(imgs: seq<Image>): (r: seq<Child>)
    ensures |r| == |imgs| && forall k :: 0 <= k < |imgs| ==> r[k] == IconLabel(imgs[k])
  {
    seq(|imgs|, k requires 0 <= k < |imgs| => IconLabel(imgs[k]))
  }

  class AlertPanel {
    var message: string
    /** _imgs: the scaled images the icon labels show. */
    var imgs: seq<Image>
    var children: seq<Child>
    /** Every Image.flush() issued so far, in order. */
    var flushes: seq<Image>

    /** The icon labels show exactly the held images, after the message label. */
    predicate Valid()
      reads this
    {
      children == [MessageLabel] + IconLabels(imgs)
    }

    constructor ()
      ensures Valid() && message == "" && imgs == [] && flushes == []
    {
      message := "";
      imgs := [];
      children := [MessageLabel];
      flushes := [];
    }

    /** Flushes every held image, in order, and forgets them. */
    method Release()
      modifies this`imgs, this`flushes
      ensures imgs == [] && flushes == old(flushes) + old(imgs)
    {
      var i := 0;
      while i < |imgs|
        invariant 0 <= i <= |imgs|
        invariant imgs == old(imgs)
        invariant flushes == old(flushes) + imgs[..i]
      {
        flushes := flushes + [imgs[i]];
        i := i + 1;
      }
      assert imgs[..i] == imgs;
      imgs := [];
    }

    /**
     * setAlertInfo: the old images are flushed and dropped, the message is set, and each
     * icon, scaled to ICON_SIZE, gets a label of its own, in order.
     */
    method SetAlertInfo(msg: string, icons: seq<Image>)
      modifies this
      ensures Valid() && message == msg
      ensures imgs == ScaledIcons(icons)
      ensures flushes == old(flushes) + old(imgs)
    {
      Release();
      message := msg;
      children := [MessageLabel];
      var i := 0;
      while i < |icons|
        invariant 0 <= i <= |icons|
        invariant imgs == ScaledIcons(icons[..i])
        invariant children == [MessageLabel] + IconLabels(imgs)
        invariant message == msg && flushes == old(flushes) + old(imgs)
      {
        var scaled := Scaled(icons[i], AlertLayout.ICON_SIZE.width, AlertLayout.ICON_SIZE.height);
        imgs := imgs + [scaled];
        children := children + [IconLabel(scaled)];
        assert icons[..i + 1][..i] == icons[..i];
        i := i + 1;
      }
      assert icons[..i] == icons;
    }

    /** dispose, the panel's own part: images flushed and dropped, only the message label left. */
    method Clear()
      modifies this
      ensures Valid() && imgs == [] && children == [MessageLabel]
      ensures message == old(message) && flushes == old(flushes) + old(imgs)
    {
      Release();
      children := [MessageLabel];
    }
  }

  /** The static stack of disposed panels. */
  class PanelPool {
    var stack: seq<AlertPanel>

    constructor ()
      ensures stack == []
    {
      stack := [];
    }

    /** create(): the most recently disposed panel, or a new one when there is none. */
    method Create() returns (p: AlertPanel)
      modifies this
      ensures old(stack) != [] ==> p == old(stack[|stack| - 1]) && stack == old(stack[..|stack| - 1])
      ensures old(stack) == [] ==> fresh(p) && p.Valid() && p.imgs == [] && stack == []
    {
      if stack != [] {
        p := stack[|stack| - 1];
        stack := stack[..|stack| - 1];
      } else {
        p := new AlertPanel();
      }
    }

    /** create(msg, icons): create() followed by setAlertInfo. */
    method CreateWith(msg: string, icons: seq<Image>) returns (p: AlertPanel)
      modifies this, stack
      ensures old(stack) != [] ==> p == old(stack[|stack| - 1]) && stack == old(stack[..|stack| - 1])
      ensures old(stack) == [] ==> fresh(p) && stack == []
      ensures p.Valid() && p.message == msg && p.imgs == ScaledIcons(icons)
      ensures old(stack) != [] ==> p.flushes == old(p.flushes) + old(p.imgs)
    {
      p := Create();
      p.SetAlertInfo(msg, icons);
    }

    /** dispose(): the panel is cleared and pushed onto the pool, which grows by one. */
    method Dispose(p: AlertPanel)
      modifies this, p
      ensures stack == old(stack) + [p] && |stack| == |old(stack)| + 1
      ensures p.Valid() && p.imgs == [] && p.children == [MessageLabel]
      ensures p.flushes == old(p.flushes) + old(p.imgs)
    {
      p.Clear();
      stack := stack + [p];
    }

    /** The pool is last in, first out: the next create() returns the panel just disposed. */
    method DisposeThenCreate(p: AlertPanel) returns (q: AlertPanel)
      modifies this, p
      ensures q == p && stack == old(stack)
      ensures q.Valid() && q.imgs == []
    {
      Dispose(p);
      q := Create();
    }
  }
}
