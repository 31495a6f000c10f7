# niconama-alert core, modelled in Dafny

This project models the core of niconama-alert, a desktop application that watches live
programs on niconico live. The core is:

- the two thumbnail caches. Both are an access-ordered, bounded LRU map with fetch retries:
  - `nico.cache.ImageCache` adds a table of keys in flight, decodes and scales images, and
    stops retrying on "not found";
  - `com.github.sgr.util.ImageCache` is the older, synchronized cache;
- the feed reader `nico.rss.XmlReader`, which drops every character that is not an XML 1.0
  `Char`;
- the Swing layouts and panels that show programs:
  - the flow layout of search results;
  - the alert layout;
  - the program-list column;
  - the waterfall of columns and its reordering;
  - the comparator that orders panels by open time;
  - the program panel and its layout;
  - the pooled alert panel.

Each module follows one source file:

| module | models |
|---|---|
| `Lru` | the `LinkedHashMap` with the `removeEldestEntry` override |
| `NicoCache` | `nico.cache.ImageCache` |
| `SgrCache` | `com.github.sgr.util.ImageCache` |
| `XmlFilter` | `XmlReader` |
| `SearchLayout` | `SearchResultPanelLayout` |
| `AlertLayout` | `AlertPanelLayout` |
| `ListLayout` | `PgmListLayout` |
| `Waterfall` | `WaterfallPanel` and its `WaterfallLayout` |
| `PanelOrder` | `PgmPanelComparator` |
| `PanelLayout` | `PgmPanelLayout` |
| `ProgramPanel` | `PgmPanel` |
| `AlertPopup` | `AlertPanel` |

Shared modules:

- `Wrappers` holds `Option` and `Outcome`.
- `Geometry` holds Swing's `Dimension`, `Rectangle` and `Insets`.
- `JavaInt` writes out Java's `long`/`int` wrap-around, `Math.abs(long)` and truncating
  division.
- `Images` holds:
  - the image values;
  - the outcomes of one network attempt;
  - the I/O trace both caches record;
  - the closed forms of their retry loops.

Inputs the model cannot see become parameters:

- the network is a function from the attempt number to its outcome;
- the image decoder and `Toolkit.createImage`;
- the clock (`now`);
- the children's preferred and minimum sizes;
- the preferred heights multi-line labels report at a given width.

Container order and sorting are also inputs. The `layoutContainer` of
`SearchResultPanelLayout` and of `PgmListLayout` sorts the panels with
`PgmPanelComparator`, its origin set to the current time; `Arrays.sort` is a library call,
so those two take their panels already sorted. `WaterfallLayout`, `AlertPanelLayout` and
`PgmPanelLayout` lay out in container order.

Where the code and its description differ, the model follows the code:

- The preferred width `SearchResultPanelLayout` computes ignores the last (open) row.
  Its panel tracks the viewport width, so this is never visible
  (`src/main/java/nico/ui/SearchResultPanel.java:92-94`).
- `SearchResultPanelLayout` measures panels in container order but places them in
  comparator order.
- A first panel wider than the available width closes an empty first row.
- `PgmPanelLayout.updateSize(target)` does not raise its result to the minimum size. Only
  `updateSize()` does.
- In `PgmPanelLayout.layoutContainer`, the time label sits MINI_PAD right of the type mark
  when there is no member-only mark. When there is one, the time label touches it with no
  gap.
- `WaterfallLayout` ignores the insets when it places the columns.
- In `AlertPanelLayout`, the message ends exactly where the icon row begins.
- `XmlReader` tests single UTF-16 code units, so it also drops every supplementary
  character (both halves of the surrogate pair).

## Model

| member | source | states |
|---|---|---|
| Lru.Without | src/main/java/nico/cache/ImageCache.java:70 | removing a key from the access order keeps exactly the other keys and never lengthens it |
| Lru.WithoutDistinct | src/main/java/nico/cache/ImageCache.java:70 | removing a key from a duplicate-free order leaves a duplicate-free order one shorter when the key was present |
| Lru.Touch | src/main/java/nico/cache/ImageCache.java:70 | an access moves the key to the most-recent end and keeps the others in their order |
| Lru.Bound | src/main/java/nico/cache/ImageCache.java:73 | the capacity bound is the capacity when it is non-negative; capacity -1 bounds the map to empty, like capacity 0 |
| Lru.AfterPut | src/main/java/nico/cache/ImageCache.java:70-81 | LinkedHashMap.put then removeEldestEntry: a present key gets the new image and becomes most recent; a new key is appended, and if the size then exceeds the capacity the eldest entry is flushed and removed |
| Lru.AfterGet | src/main/java/nico/cache/ImageCache.java:102 | a get never changes the entries or the flush log, and a miss changes nothing |
| Lru.SizeIsOrderLength | src/main/java/nico/cache/ImageCache.java:70-81 | in a well-formed map there is one entry per key of the order, at most the capacity bound |
| Lru.GetPreserves | src/main/java/nico/cache/ImageCache.java:102 | a get keeps the map well formed |
| Lru.PutPreserves | src/main/java/nico/cache/ImageCache.java:70-81 | a put keeps the map well formed and never holds more than the capacity bound |
| Lru.Evicts | src/main/java/nico/cache/ImageCache.java:72-80 | no key other than the first of the old order ever leaves the map on a put |
| Lru.PutEvictsEldest | src/main/java/nico/cache/ImageCache.java:72-80 | a put evicts nothing when the key was present or the capacity is not exceeded; otherwise it evicts exactly the eldest key, whose image is flushed |
| Lru.PutStores | src/main/java/nico/cache/ImageCache.java:139 | with capacity at least one, the image just put is in the map under its key and the key is the most recent |
| Lru.WithoutSorted | src/main/java/nico/cache/ImageCache.java:70 | removing a key keeps the order sorted by last access |
| Lru.AppendSorted | src/main/java/nico/cache/ImageCache.java:70 | appending a newly stamped key keeps the order stamped and sorted |
| Lru.TouchSorted | src/main/java/nico/cache/ImageCache.java:70 | an access keeps the order stamped and sorted by last access |
| Lru.EldestIsLeast | src/main/java/nico/cache/ImageCache.java:72-80 | the first key of the order is strictly the least recently used |
| Lru.LruMap.constructor | src/main/java/nico/cache/ImageCache.java:70-81 | a new map is empty, with nothing flushed |
| Lru.LruMap.Get | src/main/java/nico/cache/ImageCache.java:102 | returns the image stored under the key, if any; a hit makes the key the most recently used, a miss changes nothing |
| Lru.LruMap.Replace | src/main/java/nico/cache/ImageCache.java:139 | re-putting a present key replaces its image, makes it most recent and evicts nothing |
| Lru.LruMap.Append | src/main/java/nico/cache/ImageCache.java:139 | inserting a new key appends it to the order with its image |
| Lru.LruMap.RemoveEldest | src/main/java/nico/cache/ImageCache.java:72-80 | the eviction hook flushes the eldest image and removes exactly its entry |
| Lru.LruMap.Put | src/main/java/nico/cache/ImageCache.java:70-81 | a put is AfterPut of the old state; the size stays within the bound, and only the old least recently used key can disappear |
| Images.CountsAppend | src/main/java/nico/cache/ImageCache.java:177-195 | request, sleep and decode counts of a trace add up over concatenation |
| Images.Attempts | src/main/java/nico/cache/ImageCache.java:178-183 | n attempts are n requests, numbered 0 to n-1, with one sleep between each two |
| Images.AttemptsCounts | src/main/java/nico/cache/ImageCache.java:178-183 | n attempts make n requests, n-1 sleeps and no decoding |
| Images.AttemptsThen | src/main/java/nico/cache/ImageCache.java:177-195 | n attempts and one more event: the event adds one to its own kind of count |
| NicoCache.FetchData | src/main/java/nico/cache/ImageCache.java:204-239 | bytes exactly for a complete non-empty body; "not found" exactly for a missing resource; null otherwise |
| NicoCache.CreateImage | src/main/java/nico/cache/ImageCache.java:248-299 | an image exactly when decoding succeeds and scaling, if needed, does not throw; a decoded image within the maximum size comes back unchanged, a larger one is replaced by the scaled instance at the maximum size; with positive maxima the result fits |
| NicoCache.NeedsScaling | src/main/java/nico/cache/ImageCache.java:255-257 | the scale decision: wider or taller than the maximum (the null test never matters, since decoding never yields null) |
| NicoCache.ScalingThrows | src/main/java/nico/cache/ImageCache.java:285-291 | getScaledInstance throws for a zero width or height, and createImage turns that into null |
| NicoCache.FetchSpec | src/main/java/nico/cache/ImageCache.java:177-195 | the closed form of fetch: attempts up to the first decisive one, a sleep before every attempt but the first, at most limitRefetch + 1 attempts; bytes give createImage's result, "not found" or no decisive attempt give null |
| NicoCache.Fetch | src/main/java/nico/cache/ImageCache.java:177-195 | the retry loop's image and I/O trace are those of the closed form FetchSpec |
| NicoCache.FetchTrace | src/main/java/nico/cache/ImageCache.java:177-195 | a fetch's trace is some number of attempts (at most limit+1, at least one) followed by at most one decoding |
| NicoCache.ShapeCounts | src/main/java/nico/cache/ImageCache.java:177-195 | such a trace has n requests, n-1 sleeps and at most one decoding |
| NicoCache.FetchBounds | src/main/java/nico/cache/ImageCache.java:178-193 | a fetch makes at most limitRefetch+1 requests, sleeps once fewer than it requests, and decodes at most once |
| NicoCache.FetchStartsAtOnce | src/main/java/nico/cache/ImageCache.java:178-186 | the first event of every fetch is attempt 0, with no sleep before it |
| NicoCache.NotFoundStopsAtOnce | src/main/java/nico/cache/ImageCache.java:190-191 | "not found" at the first attempt gives null after exactly that one request |
| NicoCache.FetchSettles | src/main/java/nico/cache/ImageCache.java:185-192 | the fetch ends at the first decisive attempt: "not found" gives null; bytes give createImage's result, decoded once and never retried |
| NicoCache.CounterAfter | src/main/java/nico/cache/ImageCache.java:178 | the loop's `int` counter after k increments from 0, `i++` wrapping around; it equals k below 2^31 |
| NicoCache.GuardExitsAfterLimit | src/main/java/nico/cache/ImageCache.java:178 | for 0 <= limitRefetch < Integer.MAX_VALUE the guard `i <= limitRefetch` holds for exactly the first limitRefetch + 1 counter values, so the Java loop stops where FetchSpec stops |
| NicoCache.GuardNeverFailsAtMax | src/main/java/nico/cache/ImageCache.java:178 | at limitRefetch == Integer.MAX_VALUE the guard holds for every counter value, and the counter wraps to Integer.MIN_VALUE after 2^31 increments |
| NicoCache.FetchExhausts | src/main/java/nico/cache/ImageCache.java:178-194 | when no attempt is decisive, all limitRefetch+1 attempts are made and the result is null |
| NicoCache.Job | src/main/java/nico/cache/ImageCache.java:113-120 | a malformed URL gives null without any I/O |
| NicoCache.ImageCache.constructor | src/main/java/nico/cache/ImageCache.java:69-87 | the policy and maximum size are those given; the cache, the in-flight table and the trace start empty |
| NicoCache.ImageCache.WithDefaultRetry | src/main/java/nico/cache/ImageCache.java:95-97 | the four-argument constructor uses 5 retries at 2-second intervals |
| NicoCache.ImageCache.Deliver | src/main/java/nico/cache/ImageCache.java:157 | the caller gets the image obtained, else the fallback image |
| NicoCache.ImageCache.RunJob | src/main/java/nico/cache/ImageCache.java:112-121 | the owner's job yields Job's image and appends Job's I/O to the trace |
| NicoCache.ImageCache.BeginOwner | src/main/java/nico/cache/ImageCache.java:122-124 | the key joins the in-flight table |
| NicoCache.ImageCache.FinishOwner | src/main/java/nico/cache/ImageCache.java:133-142 | the key leaves the in-flight table; a non-null image is put in the cache; the caller gets the image or the fallback |
| NicoCache.ImageCache.Join | src/main/java/nico/cache/ImageCache.java:144-154 | a joiner whose wait ends in anything but an image gets the fallback |
| NicoCache.ImageCache.GetImage | src/main/java/nico/cache/ImageCache.java:99-159 | a hit returns the cached image without I/O; a key in flight is joined, with no I/O and the cache unchanged; otherwise the owner fetches, caches a non-null result and returns it or the fallback |
| SgrCache.FetchAux | src/main/java/com/github/sgr/util/ImageCache.java:99-131 | an image exactly for a completed read, and it is the toolkit's image of the body |
| SgrCache.Fetch | src/main/java/com/github/sgr/util/ImageCache.java:80-91 | the retry loop's image and trace are those of the closed form FetchSpec |
| SgrCache.FetchSucceedsIffSomeAttemptCompletes | src/main/java/com/github/sgr/util/ImageCache.java:80-91 | a fetch succeeds exactly when one of the five attempts completes, and its image is the toolkit's image of the body of the first attempt that completes |
| SgrCache.FetchSpec | src/main/java/com/github/sgr/util/ImageCache.java:80-91 | the closed form of fetch: attempts until one completes, a sleep after each failed attempt (the last one included), null after five failures |
| SgrCache.FetchCounts | src/main/java/com/github/sgr/util/ImageCache.java:81-89 | a success after k failures makes k+1 requests, k sleeps and one decoding; a failure makes 5 requests and 5 sleeps (the last sleep included) |
| SgrCache.ImageCache.constructor | src/main/java/com/github/sgr/util/ImageCache.java:42-55 | an empty cache with the given capacity and fallback |
| SgrCache.ImageCache.GetImage | src/main/java/com/github/sgr/util/ImageCache.java:57-66 | a hit returns the cached image without I/O; on a miss a malformed URL throws before any I/O; otherwise the fetch result is cached when non-null and returned, or else the fallback |
| XmlFilter.Valid | src/main/java/nico/rss/XmlReader.java:27-34 | the XML 1.0 Char production on an int: tab, LF, CR, 0x20-0xD7FF, 0xE000-0xFFFD and 0x10000-0x10FFFF |
| XmlFilter.ValidCodeUnit | src/main/java/nico/rss/XmlReader.java:27-34 | on one UTF-16 code unit the filter keeps tab, LF, CR, and 0x20-0xD7FF and 0xE000-0xFFFD, and nothing else |
| XmlFilter.Filter | src/main/java/nico/rss/XmlReader.java:27-34 | the filtered text is no longer than the input and holds only valid characters |
| XmlFilter.FilterAppend | src/main/java/nico/rss/XmlReader.java:51-56 | filtering works piecewise over concatenation, so it keeps the order of what it keeps |
| XmlFilter.FilterMembers | src/main/java/nico/rss/XmlReader.java:51-56 | a character survives exactly when it occurs in the input and is valid |
| XmlFilter.FilterIdempotent | src/main/java/nico/rss/XmlReader.java:51-56 | filtering twice is the same as filtering once |
| XmlFilter.SurrogatePairDropped | src/main/java/nico/rss/XmlReader.java:52 | a supplementary character's surrogate pair is dropped entirely |
| XmlFilter.UnderlyingCount | src/main/java/nico/rss/XmlReader.java:48 | the underlying read gives 0 for a zero-length request, -1 at end of stream, and otherwise between 1 and the smaller of the requested and remaining counts |
| XmlFilter.FirstValid | src/main/java/nico/rss/XmlReader.java:38-43 | the position of the first valid code unit: everything before it is invalid, and the filtered input starts with it |
| XmlFilter.XmlReader.constructor | src/main/java/nico/rss/XmlReader.java:10-12 | the reader starts on the given stream |
| XmlFilter.XmlReader.Read | src/main/java/nico/rss/XmlReader.java:36-44 | returns the first valid character and consumes exactly up to it, or -1 when no valid character remains; the filtered input is that character and the filtered rest |
| XmlFilter.XmlReader.Fill | src/main/java/nico/rss/XmlReader.java:47-48 | the underlying read moves the first n code units of the stream into the buffer |
| XmlFilter.XmlReader.Compact | src/main/java/nico/rss/XmlReader.java:50-57 | the valid code units among those read go, in order, to cbuf from offset on; it returns their count; nothing else in cbuf changes |
| XmlFilter.XmlReader.ReadChunk | src/main/java/nico/rss/XmlReader.java:46-61 | read(cbuf, offset, length) passes 0 and -1 through; otherwise it writes the filtered chunk at offset and returns its length, at most the length asked for |
| SearchLayout.RowsPartition | src/main/java/nico/ui/SearchResultPanelLayout.java:92-102 | the rows of the first n panels hold exactly those panels, in order |
| SearchLayout.StepPartition | src/main/java/nico/ui/SearchResultPanelLayout.java:150-157 | one wrap step adds its panel at the end of what the rows hold, whether it wraps or not |
| SearchLayout.WrapGreedy | src/main/java/nico/ui/SearchResultPanelLayout.java:150-156 | a panel that does not fit after the last row opens a new row and keeps the greedy shape |
| SearchLayout.JoinGreedy | src/main/java/nico/ui/SearchResultPanelLayout.java:150-157 | a panel that fits after the last row joins it and keeps the greedy shape |
| SearchLayout.StepGreedy | src/main/java/nico/ui/SearchResultPanelLayout.java:150-157 | one wrap step keeps the greedy shape |
| SearchLayout.RowsGreedy | src/main/java/nico/ui/SearchResultPanelLayout.java:148-158 | for the first n panels, every row after the first begins with a panel that did not fit after the row before it, and every row with two or more panels fits the width |
| SearchLayout.StepMeasures | src/main/java/nico/ui/SearchResultPanelLayout.java:150-157 | how one step changes the widest closed row, the closed rows' height, and the open row's width and height |
| SearchLayout.MeasureStep | src/main/java/nico/ui/SearchResultPanelLayout.java:150-157 | one loop iteration on the four tracked numbers is what one wrap step does to the measures of the rows |
| SearchLayout.TallyMeaning | src/main/java/nico/ui/SearchResultPanelLayout.java:148-158 | after n panels the loop's widest row, open-row width, open-row height and closed-rows height are exactly those of the rows the n panels fall into |
| SearchLayout.CalcSizeByTally | src/main/java/nico/ui/SearchResultPanelLayout.java:159-160 | the size built from the loop's final numbers is the size of the rows: widest wrapped row plus hgap, all rows' heights plus a last vgap |
| SearchLayout.PlacementByTally | src/main/java/nico/ui/SearchResultPanelLayout.java:92-102 | where layoutContainer puts a panel depends only on the measures of the rows before it |
| SearchLayout.CalcSizeWithRestriction | src/main/java/nico/ui/SearchResultPanelLayout.java:143-161 | the loop computes hgap plus the widest wrapped row, and the rows' total height plus a final vgap |
| SearchLayout.StepHeightGrows | src/main/java/nico/ui/SearchResultPanelLayout.java:150-157 | with vgap >= 0, placing a panel never lowers the flow's height |
| SearchLayout.RowsHeightGrows | src/main/java/nico/ui/SearchResultPanelLayout.java:148-159 | a prefix of the panels never needs more height than all of them |
| SearchLayout.PlacementWithinHeight | src/main/java/nico/ui/SearchResultPanelLayout.java:92-102 | laid out in the measured order, every panel ends within the calculated height less its last vgap |
| SearchLayout.PlacementWithinWidth | src/main/java/nico/ui/SearchResultPanelLayout.java:94-99 | every panel ends within the width, unless it is wider than the width and then starts its row alone |
| SearchLayout.Place | src/main/java/nico/ui/SearchResultPanelLayout.java:92-102 | the loop gives every panel its Placement |
| SearchLayout.MinimumLayoutSize | src/main/java/nico/ui/SearchResultPanelLayout.java:63-72 | one panel per row: as wide as the widest panel plus hgap on each side, the heights and gaps stacked |
| SearchLayout.NarrowFlow | src/main/java/nico/ui/SearchResultPanelLayout.java:143-161 | when no panel fits beside another, the last of the first n panels is alone in the open row, and those n panels take the minimum layout's stacked height plus the empty first row's vgap |
| SearchLayout.SearchResultPanelLayout.constructor | src/main/java/nico/ui/SearchResultPanelLayout.java:27-30 | the gaps are those given; no width, no cached size |
| SearchLayout.SearchResultPanelLayout.SetHgap | src/main/java/nico/ui/SearchResultPanelLayout.java:36-38 | sets hgap |
| SearchLayout.SearchResultPanelLayout.SetVgap | src/main/java/nico/ui/SearchResultPanelLayout.java:44-46 | sets vgap |
| SearchLayout.SearchResultPanelLayout.UpdateSize | src/main/java/nico/ui/SearchResultPanelLayout.java:128-141 | the restricted size at the width last set, else at the positive inner width, else the minimum size |
| SearchLayout.SearchResultPanelLayout.SetWidth | src/main/java/nico/ui/SearchResultPanelLayout.java:48-53 | only a positive width that differs from the current one is taken, and then the size is recomputed |
| SearchLayout.SearchResultPanelLayout.ComponentsChanged | src/main/java/nico/ui/SearchResultPanelLayout.java:59-61 | adding or removing a component drops the cached size |
| SearchLayout.SearchResultPanelLayout.InvalidateLayout | src/main/java/nico/ui/SearchResultPanelLayout.java:123-125 | invalidation forgets the width and keeps the cached size |
| SearchLayout.SearchResultPanelLayout.PreferredLayoutSize | src/main/java/nico/ui/SearchResultPanelLayout.java:74-79 | the cached size, computed first when none is cached |
| SearchLayout.SearchResultPanelLayout.LayoutContainer | src/main/java/nico/ui/SearchResultPanelLayout.java:81-103 | every sorted panel gets its Placement in the available width at the top-left of the insets |
| AlertLayout.MinimumLayoutSize | src/main/java/nico/ui/AlertPanelLayout.java:24-26 | the minimum size is 79 by 75 |
| AlertLayout.IconPlacement | src/main/java/nico/ui/AlertPanelLayout.java:76-88 | the i-th icon is shown i steps of ICON_SIZE.width + PAD left of the rightmost place, or hidden once that is left of the indent |
| AlertLayout.HiddenStaysHidden | src/main/java/nico/ui/AlertPanelLayout.java:79-87 | once an icon is hidden, every later icon is hidden too |
| AlertLayout.ShownIconsApart | src/main/java/nico/ui/AlertPanelLayout.java:80-83 | when icon i+1 is shown, icon i is shown too, and i+1 lies PAD to the left of i, so shown icons never overlap |
| AlertLayout.RemoveFirst | src/main/java/nico/ui/AlertPanelLayout.java:41 | ArrayList.remove takes out the first occurrence only, and nothing when there is none |
| AlertLayout.RemoveFirstCounts | src/main/java/nico/ui/AlertPanelLayout.java:41 | removal takes away exactly one copy of the component, and shortens the list by one exactly when it was present |
| AlertLayout.AlertPanelLayout.constructor | src/main/java/nico/ui/AlertPanelLayout.java:27-31 | no target size, no cached size, no message, no icons |
| AlertLayout.AlertPanelLayout.AddLayoutComponent | src/main/java/nico/ui/AlertPanelLayout.java:92-109 | MSG sets the message, ICON appends an icon, and any other constraint throws without changing anything |
| AlertLayout.AlertPanelLayout.RemoveLayoutComponent | src/main/java/nico/ui/AlertPanelLayout.java:37-45 | removing the message clears it; otherwise the first matching icon leaves the list |
| AlertLayout.AlertPanelLayout.PreferredLayoutSize | src/main/java/nico/ui/AlertPanelLayout.java:51-64 | recomputed from the message's preferred size when the inner size changed or nothing is cached, otherwise the cached size |
| AlertLayout.AlertPanelLayout.LayoutContainer | src/main/java/nico/ui/AlertPanelLayout.java:66-88 | the message fills the area above the icon row; icon i is shown at the i-th place from the right while it does not reach into the indent, and hidden otherwise |
| AlertLayout.LayoutGeometry | src/main/java/nico/ui/AlertPanelLayout.java:69-78 | the message ends where the icon row begins; icons start no further left than INDENT past the pad, end PAD inside the right inset and sit PAD above the bottom inset |
| ListLayout.SumSizes | src/main/java/nico/ui/PgmListLayout.java:124-132 | the loop adds up the widths and the heights-plus-separator of the sizes |
| ListLayout.CalcSizeWithRestriction | src/main/java/nico/ui/PgmListLayout.java:115-122 | every panel set to the width and stacked: exactly the width wide, the heights at that width plus separators tall |
| ListLayout.Stack | src/main/java/nico/ui/PgmListLayout.java:70-75 | panel j is placed at the list's width, at its preferred height at that width, below the panels before it and their separators |
| ListLayout.StackIsTight | src/main/java/nico/ui/PgmListLayout.java:73-74 | each panel starts one separator below the end of the one before it: no gap, no overlap |
| ListLayout.PgmListLayout.constructor | src/main/java/nico/ui/PgmListLayout.java:21-23 | no width, no cached sizes |
| ListLayout.PgmListLayout.UpdateSize | src/main/java/nico/ui/PgmListLayout.java:100-113 | the restricted size at the width last set, else at the positive inner width, else the unrestricted size |
| ListLayout.PgmListLayout.SetWidth | src/main/java/nico/ui/PgmListLayout.java:27-32 | only a positive, changed width is taken, and then the size is recomputed |
| ListLayout.PgmListLayout.MinimumLayoutSize | src/main/java/nico/ui/PgmListLayout.java:40-51 | computed from the panels' minimum sizes the first time, then the same size for good |
| ListLayout.PgmListLayout.PreferredLayoutSize | src/main/java/nico/ui/PgmListLayout.java:53-58 | the cached size, computed first when none is cached |
| ListLayout.PgmListLayout.InvalidateLayout | src/main/java/nico/ui/PgmListLayout.java:94-97 | only the preferred size is dropped |
| ListLayout.PgmListLayout.LayoutContainer | src/main/java/nico/ui/PgmListLayout.java:60-76 | the sorted panels are stacked at the inner width from the top inset down |
| ListLayout.LayoutFillsRestrictedHeight | src/main/java/nico/ui/PgmListLayout.java:115-122 | laid out at the width and in the order it was measured in, the stack ends exactly at the restricted height |
| Waterfall.MaxHeight | src/main/java/nico/ui/WaterfallPanel.java:127-136 | the tallest height: no smaller than any, and one of them unless all are below zero |
| Waterfall.RowSize | src/main/java/nico/ui/WaterfallPanel.java:127-147 | the loop gives one column width per column and the tallest height |
| Waterfall.InsertAt | src/main/java/nico/ui/WaterfallPanel.java:33 | List.add(index, x): x at index, the rest shifted |
| Waterfall.RemoveAt | src/main/java/nico/ui/WaterfallPanel.java:32 | List.remove(index): the rest closes up |
| Waterfall.Moved | src/main/java/nico/ui/WaterfallPanel.java:29-35 | moveComponent on the columns: an unknown source index changes nothing and fails; an illegal destination leaves the column removed and fails; otherwise the column is inserted at its destination |
| Waterfall.MoveIsPermutation | src/main/java/nico/ui/WaterfallPanel.java:29-35 | a legal move is a permutation with the moved column at its destination and the others in their relative order |
| Waterfall.IllegalMoveLosesColumn | src/main/java/nico/ui/WaterfallPanel.java:29-35 | an illegal destination throws after the removal, so the column is lost |
| Waterfall.WaterfallLayout.constructor | src/main/java/nico/ui/WaterfallPanel.java:108-111 | the column width starts at 250 |
| Waterfall.WaterfallLayout.SetComponentWidth | src/main/java/nico/ui/WaterfallPanel.java:113-115 | sets the column width |
| Waterfall.WaterfallLayout.PreferredLayoutSize | src/main/java/nico/ui/WaterfallPanel.java:127-136 | the columns side by side, as tall as the tallest preferred height |
| Waterfall.WaterfallLayout.MinimumLayoutSize | src/main/java/nico/ui/WaterfallPanel.java:138-147 | the same width, as tall as the tallest minimum height |
| Waterfall.WaterfallLayout.LayoutContainer | src/main/java/nico/ui/WaterfallPanel.java:149-160 | column i at (i * width, 0), one column width wide and the inner height tall |
| Waterfall.WaterfallPanel.constructor | src/main/java/nico/ui/WaterfallPanel.java:17-21 | a fresh layout with width 250 and no columns |
| Waterfall.WaterfallPanel.SetComponentWidth | src/main/java/nico/ui/WaterfallPanel.java:23-27 | passes the width to the layout |
| Waterfall.WaterfallPanel.ScrollIncrement | src/main/java/nico/ui/WaterfallPanel.java:90-96 | unit and block increments are both the column width |
| Waterfall.WaterfallPanel.MoveComponent | src/main/java/nico/ui/WaterfallPanel.java:29-35 | the columns and outcome are those of Moved: an unknown index changes nothing; an illegal destination loses the column |
| PanelOrder.CompareAt | src/main/java/nico/ui/PgmPanelComparator.java:12-19 | compare as Java computes it: the long difference of the open times (or of their absolute distances to the origin), each step wrapped to 64 bits, narrowed to int |
| PanelOrder.PgmPanelComparator.constructor | src/main/java/nico/ui/PgmPanelComparator.java:6 | the origin starts at -1 (no origin) |
| PanelOrder.PgmPanelComparator.SetOriginDate | src/main/java/nico/ui/PgmPanelComparator.java:8-10 | sets the origin |
| PanelOrder.PgmPanelComparator.Compare | src/main/java/nico/ui/PgmPanelComparator.java:12-19 | without an origin, and within int range, t2 - t1; with an origin and nothing wrapping, the difference of the distances to it |
| PanelOrder.CompareReflexive | src/main/java/nico/ui/PgmPanelComparator.java:12-19 | every panel compares equal to itself |
| PanelOrder.CompareMeaning | src/main/java/nico/ui/PgmPanelComparator.java:12-19 | where nothing wraps: antisymmetric; newest first without an origin; closest to the origin first with one |
| PanelOrder.NarrowingBreaksAntisymmetry | src/main/java/nico/ui/PgmPanelComparator.java:13-17 | open times 2^31 ms apart each compare as smaller than the other, both without an origin and with one |
| PanelOrder.IntendedIsOrder | src/main/java/nico/ui/PgmPanelComparator.java:12-19 | the intended comparison (sign of the exact difference) is reflexive, antisymmetric and transitive on all inputs |
| PanelOrder.IntendedAgrees | src/main/java/nico/ui/PgmPanelComparator.java:12-19 | where nothing wraps, the comparator as written has the sign of the intended one |
| PanelLayout.MinimumLayoutSize | src/main/java/nico/ui/PgmPanelLayout.java:24-30 | the minimum size is 143 by 105, and STD_UPPER_HEIGHT is 78 |
| PanelLayout.CalcSizeWithRestriction | src/main/java/nico/ui/PgmPanelLayout.java:251-264 | null exactly when width - 79 <= 0; otherwise exactly `width` wide, and at least the pads, 78 and the community label's height tall |
| PanelLayout.ClampedSize | src/main/java/nico/ui/PgmPanelLayout.java:231-249 | updateSize(): always at least 143 by 105; exactly the fixed size when both fixed dimensions reach the minimum; otherwise the restricted or the unrestricted size raised to the minimum |
| PanelLayout.TargetSize | src/main/java/nico/ui/PgmPanelLayout.java:211-229 | updateSize(target): the fixed size when both reach the minimum; otherwise, when the width less insets and pads leaves room, a size exactly that wide (not raised to the minimum); otherwise updateSize() |
| PanelLayout.SlotOf | src/main/java/nico/ui/PgmPanelLayout.java:71-89 | the first slot, in the order title, icon, desc, comm, time, only, type, that holds the component; none exactly when no slot holds it |
| PanelLayout.Parts | src/main/java/nico/ui/PgmPanelLayout.java:116-154 | nothing placed when the inner width is not positive; otherwise the thumbnail column is flush right, the title column PAD left of it, the time flush right after the marks, the community label the full width at the bottom, and the description under the title, PAD above the bottom of the left column |
| PanelLayout.PgmPanelLayout.constructor | src/main/java/nico/ui/PgmPanelLayout.java:32-43 | no fixed size, no cached size, invalid, no slots |
| PanelLayout.PgmPanelLayout.UpdateSize | src/main/java/nico/ui/PgmPanelLayout.java:231-249 | the cached size becomes ClampedSize |
| PanelLayout.PgmPanelLayout.UpdateSizeFor | src/main/java/nico/ui/PgmPanelLayout.java:211-229 | the cached size becomes TargetSize |
| PanelLayout.PgmPanelLayout.SetWidth | src/main/java/nico/ui/PgmPanelLayout.java:45-52 | an unchanged width does nothing; a new width is stored, the size recomputed and the layout invalidated |
| PanelLayout.PgmPanelLayout.SetHeight | src/main/java/nico/ui/PgmPanelLayout.java:54-61 | an unchanged height does nothing; a new height is stored, the size recomputed and the layout invalidated |
| PanelLayout.PgmPanelLayout.NeedLayout | src/main/java/nico/ui/PgmPanelLayout.java:63-65 | the layout becomes invalid |
| PanelLayout.PgmPanelLayout.AddLayoutComponent | src/main/java/nico/ui/PgmPanelLayout.java:162-194 | a slot constraint puts the component in that slot; anything else throws and changes nothing |
| PanelLayout.PgmPanelLayout.RemoveLayoutComponent | src/main/java/nico/ui/PgmPanelLayout.java:71-89 | only the first slot holding the component is cleared; nothing changes when none holds it |
| PanelLayout.PgmPanelLayout.PreferredLayoutSize | src/main/java/nico/ui/PgmPanelLayout.java:95-102 | recomputed by updateSize(target) when nothing is cached, the layout is invalid or there is no width; otherwise the cached size |
| PanelLayout.PgmPanelLayout.LayoutContainer | src/main/java/nico/ui/PgmPanelLayout.java:104-158 | works only when invalid or without a width, placing the parts as Parts in the fixed or the container size; valid afterwards in every case |
| ProgramPanel.RelativeTime | src/main/java/nico/ui/PgmPanel.java:291-307 | a date label carries the open time; a relative label says "later" exactly when the (wrapped) difference is negative |
| ProgramPanel.RelativeTimeMeaning | src/main/java/nico/ui/PgmPanel.java:291-307 | without overflow: relative exactly when less than a day apart; seconds below a minute, hours from an hour on; the amount is the distance rounded down to whole units; "later" exactly when now < t |
| ProgramPanel.MinValueDistance | src/main/java/nico/ui/PgmPanel.java:295 | a difference of Long.MIN_VALUE stays negative under Math.abs, and the label counts a negative number of seconds |
| ProgramPanel.DigitsRoundTrip | src/main/java/nico/ui/PgmPanel.java:297 | the decimal digits of a number read back as the number |
| ProgramPanel.DecimalRoundTrip | src/main/java/nico/ui/PgmPanel.java:297 | %d of any integer, sign included, reads back as the integer |
| ProgramPanel.Text | src/main/java/nico/ui/PgmPanel.java:296-302 | the label's text: the format "%d<unit> %s" with "later" or an empty suffix, or the formatted date |
| ProgramPanel.TextRoundTrip | src/main/java/nico/ui/PgmPanel.java:296-301 | every relative label is recovered from its text, so the text determines amount, unit and suffix |
| ProgramPanel.IconFor | src/main/java/nico/ui/PgmPanel.java:211-225 | community exactly for 0, channel exactly for 1, official for every other value |
| ProgramPanel.PgmPanel.constructor | src/main/java/nico/ui/PgmPanel.java:78-104 | a fresh layout holding title, icon, desc, comm, time and type (no member-only mark), no fixed size, default colours, and no type icon until setType |
| ProgramPanel.PgmPanel.SetWidth | src/main/java/nico/ui/PgmPanel.java:238-246 | an unchanged width does nothing; a new one is stored and, while there is a layout, forwarded to it, which recomputes its size and invalidates itself |
| ProgramPanel.PgmPanel.SetHeight | src/main/java/nico/ui/PgmPanel.java:253-261 | an unchanged height does nothing; a new one is stored and forwarded to the layout while there is one |
| ProgramPanel.PgmPanel.MinimumSize | src/main/java/nico/ui/PgmPanel.java:270 | with a layout the minimum size is 143 by 105 |
| ProgramPanel.PgmPanel.SetSize | src/main/java/nico/ui/PgmPanel.java:269-274 | a positive fixed width or height wins; otherwise the requested one raised to the minimum, so with a layout never below 143 by 105 |
| ProgramPanel.PgmPanel.SetType | src/main/java/nico/ui/PgmPanel.java:211-225 | the type label gets the icon IconFor(type) |
| ProgramPanel.PgmPanel.SetForegroundColor | src/main/java/nico/ui/PgmPanel.java:329-336 | the colour given, or black for null |
| ProgramPanel.PgmPanel.SetBackgroundColor | src/main/java/nico/ui/PgmPanel.java:338-342 | the colour given, or white for null |
| ProgramPanel.PgmPanel.SetThumbnail | src/main/java/nico/ui/PgmPanel.java:198-201 | the thumbnail becomes the one given |
| ProgramPanel.PgmPanel.Dispose | src/main/java/nico/ui/PgmPanel.java:309-326 | the layout is dropped and the thumbnail flushed and released |
| AlertPopup.ScaledIcons | src/main/java/nico/ui/AlertPanel.java:104-107 | one scaled instance at 40 by 40 per icon, in order |
| AlertPopup.AlertPanel.constructor | src/main/java/nico/ui/AlertPanel.java:136-145 | only the message label, no images, nothing flushed |
| AlertPopup.AlertPanel.Release | src/main/java/nico/ui/AlertPanel.java:97-100 | every held image is flushed, in order, and the list emptied |
| AlertPopup.AlertPanel.SetAlertInfo | src/main/java/nico/ui/AlertPanel.java:90-110 | the old images are flushed; the message is set; the images are exactly one scaled image per icon, in order, each shown by its own label after the message label |
| AlertPopup.AlertPanel.Clear | src/main/java/nico/ui/AlertPanel.java:67-79 | all images flushed and dropped, only the message label left |
| AlertPopup.PanelPool.constructor | src/main/java/nico/ui/AlertPanel.java:38 | the pool starts empty |
| AlertPopup.PanelPool.Create | src/main/java/nico/ui/AlertPanel.java:40-53 | pops and returns the top of the pool, or builds a new empty panel when the pool is empty |
| AlertPopup.PanelPool.CreateWith | src/main/java/nico/ui/AlertPanel.java:55-59 | create() followed by setAlertInfo(msg, icons) |
| AlertPopup.PanelPool.Dispose | src/main/java/nico/ui/AlertPanel.java:66-84 | the panel is cleared and pushed, and the pool grows by exactly one |
| AlertPopup.PanelPool.DisposeThenCreate | src/main/java/nico/ui/AlertPanel.java:40-84 | the pool is last in, first out: create() right after dispose(p) returns p and restores the pool |

## Left out

- Concurrency: the executor, the `Future` waits, the joiner's 10-second timeout and all
  `synchronized` blocks are modelled as sequential steps. The model makes no claim of "at
  most one fetch per key" under real threads: the in-flight check and the put are not
  atomic.
- NicoCache.FetchSpec, NicoCache.Fetch, NicoCache.FetchTrace, NicoCache.FetchBounds, NicoCache.FetchExhausts:
  their counter is a mathematical integer, so for every limit they stop after
  limitRefetch + 1 attempts. Java's `int` counter wraps at `Integer.MAX_VALUE`, where the
  guard never fails: Java retries until an attempt is decisive, and forever without one.
  GuardExitsAfterLimit shows that the two agree for every smaller limit, and
  GuardNeverFailsAtMax states the wrap (see "## Findings").
- AlertLayout.AlertPanelLayout.PreferredLayoutSize, AlertLayout.AlertPanelLayout.LayoutContainer, PanelLayout.PgmPanelLayout.LayoutContainer:
  their requires exclude the `NullPointerException` Java throws when the message label is
  missing without a usable cached size (`AlertPanelLayout.java:57`, `AlertPanelLayout.java:74`),
  or when one of the six PgmPanel labels is missing (`PgmPanelLayout.java:116-154`). `AlertPanel` always
  holds its message label, and the `PgmPanel` constructor adds all six labels, so no
  caller in the program reaches those paths.
- NicoCache.ImageCache.GetImage: the owner's `f.get()` is taken to return the job's result.
  Its cancellation, execution and interruption exceptions (which give the fallback) are
  modelled only for the joiner.
- Network I/O: connections, timeouts and stream reading are reduced to one outcome per
  attempt.
- `MediaTracker`, `Toolkit.createImage` and `getScaledInstance` are inputs or values: the
  decoder is a parameter, and a scaled image is recorded as such.
- NicoCache.CreateImage: for a negative maximum width or height, `getScaledInstance` derives
  that side from the source's aspect ratio. The model records only the requested size, so
  it claims the result fits only when both maxima are positive.
- Lru.LruMap.constructor, NicoCache.ImageCache.constructor, SgrCache.ImageCache.constructor:
  `new LinkedHashMap(capacity + 1, ...)` throws `IllegalArgumentException` when
  `capacity + 1` is negative in Java `int` (capacity <= -2, or `Integer.MAX_VALUE` once the
  addition wraps). The constructors accept every capacity and do not model that exception.
- AlertLayout.AlertPanelLayout.AddLayoutComponent, PanelLayout.PgmPanelLayout.AddLayoutComponent:
  a null constraint throws `NullPointerException` from `constraints.getClass()` while the
  exception message is built (`AlertPanelLayout.java:106-107`, `PgmPanelLayout.java:191-192`).
  It does not throw `IllegalArgumentException`. The model has no null constraint.
- SgrCache.FetchAux: the `(HttpURLConnection)` cast
  (`com/github/sgr/util/ImageCache.java:102`) can throw `ClassCastException` for a non-HTTP
  URL. After `openConnection` fails, `conn.getResponseCode()` (line 112) throws
  `NullPointerException` on the null connection, and that exception escapes `getImage`.
  Neither is modelled: every failed attempt gives null.
- Logging everywhere.
- `SimpleDateFormat`: the date shown a day or more away, and the tooltip, are not rendered.
- System.currentTimeMillis: the clock is the parameter `now`.
- Sorting: `Arrays.sort` with the comparator is a library call, so the two sorting layouts
  (`SearchResultPanelLayout`, `PgmListLayout`) take their panels already sorted.
- PanelLayout.ClampedSize: calcSizeNoRestriction's width-shrinking loops over the label
  heights are not modelled; their result is the input `Labels.unrestricted`.
- The multi-line labels' text wrapping: the preferred height a label reports at a width is
  an input.
- The `setSize`, `setBounds` and `setVisible` side effects on child components are returned
  as bounds rather than applied.
- Java `int` overflow in the layout arithmetic is not modelled. Sizes are unbounded
  integers.
- XmlFilter.XmlReader.ReadChunk: requires the offset and length to lie in the array.
  For a negative length the source throws `NegativeArraySizeException`. For an offset
  outside the array, or one that leaves too little room, it throws
  `ArrayIndexOutOfBoundsException` only when a valid code unit would land outside it, after
  writing the ones before it; when no valid unit lands outside, it returns normally.
- The UTF-8 decoding of `InputStreamReader`: the stream is given as UTF-16 code units.
- Getters, `getImageIcon` (an `ImageIcon` wrapper around `getImage`), `setLinkHandlers`,
  `ignoreMouse`, `paint` and the mouse listeners are not modelled.
- PgmPanel's text setters (`setTitle`, `setDescription`, `setComm`, `setOpenTime`) and their
  URIs are not modelled.
- `setOnly` is not modelled. It removes the member-only label, which reaches the layout's
  `RemoveLayoutComponent` only when the label is a child of the panel. Only when `only` is
  true does it set the icon and add the label with the ONLY slot.
- AlertPanel's `disposeActually` is not modelled; nothing calls it.
- AlertPanel's colour setters are not modelled. They are the same null-to-default rule as
  PgmPanel's.
- AlertPopup.AlertPanel.SetAlertInfo: the alert layout's component registry is not driven
  from the panel. The panel's children are kept as a sequence of labels.
- The comparator's `CompareIntended` is not used by any layout, because the layouts take
  their panels already sorted.

## Findings

| source | as written | input that shows it | evidently intended | confidence | as-written member | corrected member |
|---|---|---|---|---|---|---|
| src/main/java/nico/ui/PgmPanelComparator.java:14-17 | the long difference of the open times (or of their distances to the origin) is narrowed with `(int)` | with no origin, open times 0 and 2^31 ms (about 24.9 days apart); with the origin at 2^31 ms (the mode the sorting layouts use), open times 2^31 and 0: in both cases each compares as smaller than the other, which breaks the Comparator contract that `Arrays.sort` relies on | the sign of the exact difference, as `Long.compare` gives it | medium, not executed | PanelOrder.NarrowingBreaksAntisymmetry | PanelOrder.IntendedIsOrder |
| src/main/java/nico/cache/ImageCache.java:178 | the retry loop counts attempts with an `int` that `i++` wraps, against the guard `i <= limitRefetch` | limitRefetch = Integer.MAX_VALUE (2147483647, which the public constructor accepts) and a server that never gives a decisive answer: after attempt 2147483647 the counter wraps to -2147483648, the guard still holds, and the fetch never ends | at most limitRefetch + 1 attempts, as for every smaller limit | low, not executed | NicoCache.GuardNeverFailsAtMax | NicoCache.FetchBounds |
