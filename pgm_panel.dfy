/**
 * nico.ui.PgmPanel: the panel showing one program. Modelled here: the relative time label,
 * the type icon, the colours with their defaults, and the fixed width and height the
 * panel forwards to its PgmPanelLayout and uses when it is resized.
 */
module ProgramPanel {
  import opened Wrappers
  import opened Geometry
  import opened JavaInt
  import opened Images
  import PanelLayout

  const MILLIS_PER_SECOND: int := 1000
  const MILLIS_PER_MINUTE: int := 60000
  const MILLIS_PER_HOUR: int := 3600000
  const MILLIS_PER_DAY: int := 86400000

  datatype TimeUnit = Seconds | Minutes | Hours

  /**
   * What relativeTimeString shows: a whole number of units since (or, when `later`, until)
   * the opening time, or, a day or more away, the opening date itself (formatted "d MMM",
   * which is not modelled).
   */
  datatype TimeLabel = Relative(amount: int, unit: TimeUnit, later: bool) | Absolute(time: Long)

  function Millis(u: TimeUnit): int {
    match u
    case Seconds => MILLIS_PER_SECOND
    case Minutes => MILLIS_PER_MINUTE
    case Hours => MILLIS_PER_HOUR
  }

  /** relativeTimeString: `now` is the clock reading, `t` the opening time, both in ms. */
  function RelativeTime(now: Long, t: Long): (r: TimeLabel)
    ensures r.Absolute? ==> r.time == t
    ensures r.Relative? ==> (r.later <==> WrapLong(now - t) < 0)
  {
    var diff := WrapLong(now - t);
    var later := diff < 0;
    var d := LongAbs(diff);
    if d < MILLIS_PER_MINUTE then Relative(JavaDiv(d, MILLIS_PER_SECOND), Seconds, later)
    else if d < MILLIS_PER_HOUR then Relative(JavaDiv(d, MILLIS_PER_MINUTE), Minutes, later)
    else if d < MILLIS_PER_DAY then Relative(JavaDiv(d, MILLIS_PER_HOUR), Hours, later)
    else Absolute(t)
  }

  /**
   * When now - t does not overflow (any two dates within 292 million years): the label is
   * relative exactly when the times are less than a day apart, the unit is the largest
   * of seconds, minutes and hours that fits under the next threshold, the amount is the
   * distance rounded down to whole units, and `later` says that t is in the future.
   */
  lemma RelativeTimeMeaning(now: Long, t: Long)
    requires -TWO_63 < now - t < TWO_63
    ensures var r := RelativeTime(now, t);
            var d := if now >= t then now - t else t - now;
            && (r.Relative? <==> d < MILLIS_PER_DAY)
            && (r.Relative? ==>
                  && (r.later <==> now < t)
                  && (r.unit == Seconds <==> d < MILLIS_PER_MINUTE)
                  && (r.unit == Hours <==> MILLIS_PER_HOUR <= d)
                  && r.amount * Millis(r.unit) <= d < (r.amount + 1) * Millis(r.unit)
                  && 0 <= r.amount && (r.unit != Seconds ==> 1 <= r.amount)
                  && r.amount < (if r.unit == Hours then 24 else 60))
  {
    var r := RelativeTime(now, t);
    var d := if now >= t then now - t else t - now;
    assert LongAbs(WrapLong(now - t)) == d;
    if r.Relative? {
      var m := Millis(r.unit);
      assert r.amount == d / m;
      assert d / m * m <= d < (d / m + 1) * m;
    }
  }

  /**
   * When now - t is exactly Long.MIN_VALUE its absolute value stays negative, so the
   * label counts a negative number of seconds.
   */
  lemma MinValueDistance(now: Long, t: Long)
    requires now - t == -TWO_63
    ensures RelativeTime(now, t) == Relative(-9223372036854775, Seconds, true)
  {
    assert WrapLong(now - t) == -TWO_63;
  }

  /** A digit character. */
  function DigitChar(d: int): (c: char)
    requires 0 <= d < 10
    ensures '0' <= c <= '9'
  {
    "0123456789"[d]
  }

  function DigitValue(c: char): int
    requires '0' <= c <= '9'
  {
    c as int - '0' as int
  }

  /** A non-empty string of decimal digits. */
  predicate IsDigits(s: string) {
    |s| >= 1 && forall i :: 0 <= i < |s| ==> '0' <= s[i] <= '9'
  }

  /** The decimal digits of n, most significant first, without leading zeros. */
  function Digits(n: nat): (s: string)
    ensures IsDigits(s)
  {
    if n < 10 then [DigitChar(n)] else Digits(n / 10) + [DigitChar(n % 10)]
  }

  /** Java's %d: an optional minus sign and the digits. */
  function Decimal(n: int): string {
    if n < 0 then "-" + Digits(-n) else Digits(n)
  }

  function UnitChar(u: TimeUnit): char {
    match u
    case Seconds => 's'
    case Minutes => 'm'
    case Hours => 'h'
  }

  /**
   * The label's text: the format "%d<unit> %s" with the suffix "later" or empty (which
   * leaves a trailing space); a date label shows `dateText`, what the date format gives.
   */
  function Text(l: TimeLabel, dateText: string): string {
    match l
    case Relative(amount, unit, later) => Decimal(amount) + [UnitChar(unit)] + " " + (if later then "later" else "")
    case Absolute(_) => dateText
  }

  function ParseDigits(s: string): (n: nat)
    requires IsDigits(s)
  {
    var last := DigitValue(s[|s| - 1]);
    if |s| == 1 then last else ParseDigits(s[..|s| - 1]) * 10 + last
  }

  function ParseDecimal(s: string): Option<int> {
    if |s| >= 2 && s[0] == '-' && IsDigits(s[1..]) then Some(0 - ParseDigits(s[1..]) as int)
    else if IsDigits(s) then Some(ParseDigits(s))
    else None
  }

  function ParseUnit(c: char): Option<TimeUnit> {
    if c == 's' then Some(Seconds) else if c == 'm' then Some(Minutes) else if c == 'h' then Some(Hours) else None
  }

  /** Reads a relative label back from its text: the inverse of Text on relative labels. */
  function ParseRelative(s: string): Option<TimeLabel> {
    var later := |s| >= 6 && s[|s| - 6..] == " later";
    if !later && !(|s| >= 1 && s[|s| - 1] == ' ') then None
    else
      var body := if later then s[..|s| - 6] else s[..|s| - 1];
      if |body| < 2 then None
      else
        var u := ParseUnit(body[|body| - 1]);
        var n := ParseDecimal(body[..|body| - 1]);
        if u.None? || n.None? then None else Some(Relative(n.value, u.value, later))
  }

  lemma {:induction false} DigitsRoundTrip(n: nat)
    ensures ParseDigits(Digits(n)) == n
    decreases n
  {
    if n >= 10 {
      var s := Digits(n);
      assert s[..|s| - 1] == Digits(n / 10);
      DigitsRoundTrip(n / 10);
    }
  }

  lemma ParseUnsigned(d: string)
    requires IsDigits(d)
    ensures ParseDecimal(d) == Some(ParseDigits(d) as int)
  {
    assert d[0] != '-';
  }

  lemma ParseNegative(d: string)
    requires IsDigits(d)
    ensures ParseDecimal("-" + d) == Some(0 - ParseDigits(d) as int)
  {
    var s := "-" + d;
    assert s[0] == '-' && s[1..] == d;
  }

  lemma DecimalRoundTrip(n: int)
    ensures ParseDecimal(Decimal(n)) == Some(n)
  {
    var m: nat := if n < 0 then -n else n;
    var d := Digits(m);
    DigitsRoundTrip(m);
    if n < 0 {
      ParseNegative(d);
      assert Decimal(n) == "-" + d;
    } else {
      ParseUnsigned(d);
      assert Decimal(n) == d;
    }
  }

  lemma LaterSuffix(body: string)
    ensures var s := body + " later";
            |s| >= 6 && s[|s| - 6..] == " later" && s[..|s| - 6] == body
  {
    var s := body + " later";
    assert s[|s| - 6..] == " later";
    assert s[..|s| - 6] == body;
  }

  lemma SpaceSuffix(body: string)
    ensures var s := body + " ";
            && !(|s| >= 6 && s[|s| - 6..] == " later")
            && |s| >= 1 && s[|s| - 1] == ' ' && s[..|s| - 1] == body
  {
    var s := body + " ";
    if |s| >= 6 { assert s[|s| - 6..][5] == s[|s| - 1] == ' '; }
    assert s[..|s| - 1] == body;
  }

  /** Every relative label is recovered from its text. */
  lemma TextRoundTrip(l: TimeLabel, dateText: string)
    requires l.Relative?
    ensures ParseRelative(Text(l, dateText)) == Some(l)
  {
    var d := Decimal(l.amount);
    var body := d + [UnitChar(l.unit)];
    if l.later {
      assert Text(l, dateText) == body + " later";
      LaterSuffix(body);
    } else {
      assert Text(l, dateText) == body + " ";
      SpaceSuffix(body);
    }
    assert body[..|body| - 1] == d && body[|body| - 1] == UnitChar(l.unit);
    assert ParseUnit(UnitChar(l.unit)) == Some(l.unit);
    DecimalRoundTrip(l.amount);
  }

  /** The type mark setType shows. */
  datatype TypeIcon = CommunityIcon | ChannelIcon | OfficialIcon

  /** setType: 0 is a community, 1 a channel, anything else (2 included) official. */
  function IconFor(kind: int): (r: TypeIcon)
    ensures r == CommunityIcon <==> kind == 0
    ensures r == ChannelIcon <==> kind == 1
    ensures r == OfficialIcon <==> kind != 0 && kind != 1
  {
    if kind == 0 then CommunityIcon else if kind == 1 then ChannelIcon else OfficialIcon
  }

  datatype Color = Rgb(red: int, green: int, blue: int)
  const BLACK: Color := Rgb(0, 0, 0)
  const WHITE: Color := Rgb(255, 255, 255)
  const FOREGROUND_DEFAULT: Color := BLACK
  const BACKGROUND_DEFAULT: Color := WHITE

  class PgmPanel {
    /** Null once the panel has been disposed. */
    var layout: PanelLayout.PgmPanelLayout?
    /** What the title, description and community labels report about their sizes. */
    var labels: PanelLayout.Labels
    var currWidth: int
    var currHeight: int
    var size: Dim
    var fg: Color
    var bg: Color
    /** The type label's icon; None until setType is called. */
    var typeIcon: Option<TypeIcon>
    var thumbnail: Option<Image>

    /** The panel forwards every fixed width and height to its layout. */
    predicate Valid()
      reads this, layout
    {
      layout != null ==> layout.width == currWidth && layout.height == currHeight
    }

    constructor (labels: PanelLayout.Labels)
      ensures Valid() && fresh(layout)
      ensures this.labels == labels && currWidth == 0 && currHeight == 0
      ensures fg == FOREGROUND_DEFAULT && bg == BACKGROUND_DEFAULT && thumbnail == None && typeIcon == None
      ensures layout.slots.Keys == {PanelLayout.Title, PanelLayout.Icon, PanelLayout.Desc,
                                    PanelLayout.Comm, PanelLayout.Time, PanelLayout.Type}
    {
      var l := new PanelLayout.PgmPanelLayout();
      l.slots := map[PanelLayout.Title := 0, PanelLayout.Icon := 1, PanelLayout.Desc := 2,
                     PanelLayout.Comm := 3, PanelLayout.Time := 4, PanelLayout.Type := 6];
      layout := l;
      this.labels := labels;
      currWidth, currHeight := 0, 0;
      size := Dim(0, 0);
      fg, bg := FOREGROUND_DEFAULT, BACKGROUND_DEFAULT;
      typeIcon := None;
      thumbnail := None;
    }

    /** setWidth: an unchanged width does nothing; a new one is kept and passed to the layout. */
    method SetWidth(w: int)
      requires Valid()
      modifies this`currWidth, layout
      ensures Valid() && layout == old(layout)
      ensures w == old(currWidth) ==> currWidth == old(currWidth) && (layout != null ==> unchanged(layout))
      ensures w != old(currWidth) ==>
                && currWidth == w
                && (layout != null ==> layout.preferred == Some(PanelLayout.ClampedSize(labels, w, currHeight))
                                       && !layout.valid && layout.slots == old(layout.slots))
    {
      if currWidth != w {
        currWidth := w;
        if layout != null {
          layout.SetWidth(w, labels);
        }
      }
    }

    /** setHeight: an unchanged height does nothing; a new one is kept and passed to the layout. */
    method SetHeight(h: int)
      requires Valid()
      modifies this`currHeight, layout
      ensures Valid() && layout == old(layout)
      ensures h == old(currHeight) ==> currHeight == old(currHeight) && (layout != null ==> unchanged(layout))
      ensures h != old(currHeight) ==>
                && currHeight == h
                && (layout != null ==> layout.preferred == Some(PanelLayout.ClampedSize(labels, currWidth, h))
                                       && !layout.valid && layout.slots == old(layout.slots))
    {
      if currHeight != h {
        currHeight := h;
        if layout != null {
          layout.SetHeight(h, labels);
        }
      }
    }

    /**
     * The minimum size: the layout's while there is one; a container without a layout
     * reports its current size.
     */
    function MinimumSize(): (d: Dim)
      reads this
      ensures layout != null ==> d == PanelLayout.MIN_SIZE
    {
      if layout != null then PanelLayout.MinimumLayoutSize() else size
    }

    /**
     * setSize: a fixed width or height wins when positive; otherwise the requested one,
     * raised to the minimum. So with a layout the panel is never smaller than 143 by 105
     * in a direction that is not fixed.
     */
    method SetSize(width: int, height: int)
      modifies this`size
      ensures var min := old(MinimumSize());
              size == Dim(if currWidth > 0 then currWidth else Max(width, min.width),
                          if currHeight > 0 then currHeight else Max(height, min.height))
      ensures layout != null && currWidth <= 0 ==> size.width >= PanelLayout.MIN_WIDTH && size.width >= width
      ensures layout != null && currHeight <= 0 ==> size.height >= PanelLayout.MIN_HEIGHT && size.height >= height
    {
      var min := MinimumSize();
      var w := if width > min.width then width else min.width;
      var h := if height > min.height then height else min.height;
      size := Dim(if currWidth > 0 then currWidth else w, if currHeight > 0 then currHeight else h);
    }

    method SetType(kind: int)
      modifies this`typeIcon
      ensures typeIcon == Some(IconFor(kind))
    {
      if kind == 0 {
        typeIcon := Some(CommunityIcon);
      } else if kind == 1 {
        typeIcon := Some(ChannelIcon);
      } else {
        typeIcon := Some(OfficialIcon);
      }
    }

    /** setForegroundColor: null stands for the default, black. */
    method SetForegroundColor(color: Option<Color>)
      modifies this`fg
      ensures color.Some? ==> fg == color.value
      ensures color.None? ==> fg == FOREGROUND_DEFAULT
    {
      fg := if color.Some? then color.value else FOREGROUND_DEFAULT;
    }

    /** setBackgroundColor: null stands for the default, white. */
    method SetBackgroundColor(color: Option<Color>)
      modifies this`bg
      ensures color.Some? ==> bg == color.value
      ensures color.None? ==> bg == BACKGROUND_DEFAULT
    {
      bg := if color.Some? then color.value else BACKGROUND_DEFAULT;
    }

    /** setIcon */
    method SetThumbnail(img: Option<Image>)
      modifies this`thumbnail
      ensures thumbnail == img
    {
      thumbnail := img;
    }

    /** dispose: the layout is dropped and the thumbnail, flushed, is released. */
    method Dispose() returns (flushed: Option<Image>)
      modifies this`layout, this`thumbnail
      ensures layout == null && thumbnail == None && flushed == old(thumbnail)
      ensures Valid()
    {
      flushed := thumbnail;
      layout := null;
      thumbnail := None;
    }
  }
}
