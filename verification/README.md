# Afropop Worldwide site scripts: a Dafny model

This project models the behaviour of the two browser scripts of the Afropop
Worldwide site and proves properties of that model:

- `assets/js/main.js` holds four parts.
  - The navigation toggle keeps `aria-expanded` and `aria-hidden` in step.
  - The newsletter form refuses an empty address.
  - The giving tracker animates a fundraising total up to its configured value.
    It then adds a simulated donation on every tick and never passes the goal.
  - The "joy band" lays image tiles on a grid. It picks a three- or four-column
    tier from the viewport, or switches itself off. It orders the grid cells
    along a snake (boustrophedon) path. It gives each tile a slot through an
    assignment that stays a bijection. Each cycle rotates that assignment, so
    every tile but one steps to the neighbouring cell on the path, and moves to
    the next colour palette.
- `assets/js/givebutter.js` configures the Givebutter donation widget.
  - A slug guard makes it do nothing without a campaign slug.
  - It copies the page's `utm_` query parameters into a tracking map and into a
    fallback URL on `givebutter.com`.
  - It checks whether the widget library is ready and picks its API object.
  - It resolves embed ids.
  - It works through a fixed chain of calling conventions for the inline embed
    and the popup triggers. An error thrown when a popup is opened ends in the
    fallback URL; an error while creating the inline embed or a popup is only logged.

Modules, one concept each:

| module | file | models |
|---|---|---|
| `Common` | `common.dfy` | `Option`, `String.prototype.trim`, a few arithmetic facts |
| `JoyLayout` | `joy_layout.dfy` | `computeConfig`, `computeSlots`, the snake path |
| `JoyAssign` | `joy_assign.dfy` | the slot assignment: its rebuild on layout and its rotation per cycle |
| `HexColor` | `hex_color.dfy` | `withOpacity`, including `parseInt(…, 16)` and the 32-bit shifts |
| `JoyBand` | `joy_band.dfy` | the band's state (`Band`): `layoutBand`, `applyPalette`, `animateCycle`, the pointer and key handlers |
| `GivingTracker` | `giving_tracker.dfy` | the tracker's state (`Tracker`): `animateState`, `scheduleUpdate`, the first sighting, and the increment arithmetic |
| `SiteNav` | `site_nav.dfy` | `setExpanded` and its callers; the newsletter submit guard |
| `DonationConfig` | `donation_config.dfy` | slug guard, default embed id, UTM filtering, `URLSearchParams.set`, fallback URL |
| `DonationWidget` | `donation_widget.dfy` | readiness, API selection, embed id and theme, inline and popup dispatch |

Two facts about the code shape the model:

- `assignments.unshift(assignments.pop())` gives every tile the slot its
  predecessor held. So from the first layout every tile moves one slot back
  along the snake path, and tile 0 wraps to the last slot
  (`JoyAssign.CycleFromStart`).
- `layoutBand` rebuilds the assignment as `(previous[i] ?? i) % slots.length`.
  That keeps a bijection only because the slot count is always 0 or the tile
  count: every tier has at least as many cells as tiles.
  `JoyAssign.RebuildShrinkCollides` shows that the same formula would put two
  tiles on one slot if the count could shrink.

Inputs from the browser become parameters:

- media-query results (`reduceMotion`, `mobile`, `tablet`, `narrow`);
- `Math.random()` draws, as reals in [0, 1);
- the band's `clientWidth` and the pointer coordinates;
- the query string, as a sequence of name/value pairs;
- the attributes the scripts read;
- the state of the third-party `window.Givebutter` global;
- whether one of its calls throws.

## Model

| member | source | states |
|---|---|---|
| Common.TrimStart | assets/js/givebutter.js:3-4 | the result is a suffix of the input; it does not start with white space; everything dropped is white space |
| Common.TrimEnd | assets/js/givebutter.js:3-4 | the result is a prefix of the input; it does not end with white space; everything dropped is white space |
| Common.Trim | assets/js/givebutter.js:3-4 | a trimmed string is empty or starts and ends with a non-white-space character |
| Common.TrimStartKeeps | assets/js/givebutter.js:3-4 | a string that does not start with white space loses nothing at its start |
| Common.TrimIsInnerSlice | assets/js/givebutter.js:3-4 | trimming keeps one contiguous middle slice of the input and drops only white space before and after it |
| Common.TrimEmptyIffBlank | assets/js/givebutter.js:3-7 | a string trims to the empty string exactly when every character is white space |
| JoyLayout.CeilDiv | assets/js/main.js:262 | `Math.ceil(n / d)`: the least `q` with `q * d >= n` |
| JoyLayout.ComputeConfig | assets/js/main.js:255-273 | disabled exactly under reduced motion or a mobile viewport; a tablet gets 3 columns, gap 14, aspect 1.55 and the least row count that is at least 3 and holds all tiles; wider viewports get 4 columns, gap 18, aspect 1.85 and the least row count that is at least 2 and holds all tiles |
| JoyLayout.ConfigHoldsAllTiles | assets/js/main.js:255-273 | every enabled tier has a positive column count and at least as many cells as tiles |
| JoyLayout.SnakeCell | assets/js/main.js:286-297 | snake position `k` lies in row `k / cols`, in column `k % cols` on an even row and in the mirrored column on an odd row |
| JoyLayout.GridSlot | assets/js/main.js:279-282 | with a non-negative pitch a slot lies at a non-negative offset, horizontally no farther than the last column |
| JoyLayout.SnakePath | assets/js/main.js:286-297 | the snake path has one entry per grid cell |
| JoyLayout.SnakeSlots | assets/js/main.js:299 | the slot list is cut to the tile count, or to the grid size if that is smaller |
| JoyLayout.SnakeCellInRow | assets/js/main.js:288-296 | within row `r` the path visits columns left to right when `r` is even and right to left when it is odd |
| JoyLayout.SnakeCellInvolution | assets/js/main.js:286-297 | applying the snake order twice gives back the starting cell |
| JoyLayout.SnakeCellInGrid | assets/js/main.js:286-297 | every snake position inside the grid names a cell inside the grid |
| JoyLayout.SnakePathIsPermutation | assets/js/main.js:286-297 | the snake path lists every grid cell exactly once |
| JoyLayout.SnakeStepWithinRow | assets/js/main.js:288-296 | two consecutive stops in the same row are side-by-side cells |
| JoyLayout.SnakeStepAcrossRows | assets/js/main.js:288-296 | the last stop of a row and the first stop of the next row are vertically adjacent |
| JoyLayout.SnakePathIsContinuous | assets/js/main.js:286-297 | every two consecutive stops on the snake path share a side |
| JoyLayout.BuildGrid | assets/js/main.js:276-284 | the first loop nest yields `rows * cols` slots; slot `i` sits at column `i % cols` and row `i / cols` |
| JoyLayout.BuildSnakePath | assets/js/main.js:286-297 | the second loop nest, with its forward and backward inner loops, yields exactly the snake path |
| JoyLayout.ComputeSlots | assets/js/main.js:275-300 | `computeSlots` returns the grid slots of the first tile-count snake positions |
| JoyLayout.SlotsMatchTiles | assets/js/main.js:299 | on an enabled tier there is one slot per tile, and slot `k` is the grid cell at snake position `k` |
| JoyAssign.Iota | assets/js/main.js:394 | the `?? idx` default: tile `i` on slot `i` |
| JoyAssign.Rebuild | assets/js/main.js:393-394 | the rebuilt assignment has one entry per slot, and each entry names a slot |
| JoyAssign.RebuildFresh | assets/js/main.js:394 | with no previous assignment every tile gets its own slot, a bijection |
| JoyAssign.RebuildKeeps | assets/js/main.js:392-394 | when the previous assignment was a bijection onto the same slot count, the rebuild leaves every tile on its slot |
| JoyAssign.RebuildShrinkCollides | assets/js/main.js:394 | from a bijection onto 3 slots, the rebuild onto 2 slots puts two tiles on slot 0 |
| JoyAssign.RotateRight | assets/js/main.js:340 | a cycle step keeps the assignment's length |
| JoyAssign.CycleFromStart | assets/js/main.js:340 | from the first layout's assignment, tile `t > 0` moves to slot `t - 1` and tile 0 to the last slot |
| JoyAssign.RotatePreservesPermutation | assets/js/main.js:340 | a cycle step keeps the assignment a bijection and keeps its multiset of slots |
| JoyAssign.RotateN | assets/js/main.js:335-361 | repeated cycle steps keep the length |
| JoyAssign.RotateNSplit | assets/js/main.js:340 | after `k <= n` steps the last `k` entries stand, in order, in front of the rest |
| JoyAssign.FullCycleRestores | assets/js/main.js:335-361 | as many steps as there are tiles bring every tile back to its slot |
| JoyAssign.RotatedIotaEntry | assets/js/main.js:340 | after `k < n` cycle steps from the first layout, tile `t` stands on slot `t - k`, or `t + n - k` when that would be negative |
| JoyAssign.ShiftedIsRotation | assets/js/main.js:340 | the closed form equals the first layout rotated `k` times |
| JoyAssign.NextCount | assets/js/main.js:335-361 | the cycle count modulo the slot count: `(k + 1) % n`, below the slot count, and 0 exactly after the last |
| JoyAssign.ReachableAfterCycle | assets/js/main.js:340 | from any assignment a cycle can reach, the next step reaches the next count, and every tile moves one slot back along the snake path, the tile on slot 0 wrapping to the last slot |
| JoyAssign.RotateNPreservesPermutation | assets/js/main.js:335-361 | any number of cycle steps keeps the assignment a bijection |
| HexColor.RemoveFirstHash | assets/js/main.js:210 | a leading `#` is dropped and the rest kept; a string without `#` is unchanged |
| HexColor.DropsFirstHashOnly | assets/js/main.js:210 | `replace('#', '')` drops the first `#` wherever it stands and keeps everything before and after it, later `#`s included |
| HexColor.Expand | assets/js/main.js:211-216 | a three-character value becomes six characters, each doubled; other lengths are kept |
| HexColor.DigitValue | assets/js/main.js:217 | a hex digit's value is below 16 |
| HexColor.ParseIntHex | assets/js/main.js:217 | a blank string is NaN, and a negative result comes only from a leading `-`; its steps (skipping white space, `StripSign`, `StripHexPrefix`, `HexRunLength`, `HexValue`) are parts of this one call |
| HexColor.HexRunLength | assets/js/main.js:217 | `parseInt` reads the longest leading run of hex digits |
| HexColor.Channel | assets/js/main.js:218-220 | `(v >> s) & 255` is always a byte, and 0 for NaN |
| HexColor.WithOpacity | assets/js/main.js:209-222 | every channel is in 0..255 whatever the input, and the alpha is passed through |
| HexColor.HexRunOfDigits | assets/js/main.js:217 | a string made only of hex digits is read whole |
| HexColor.NothingToSkip | assets/js/main.js:217 | a value starting with two hex digits has no white space, sign or `0x` prefix for `parseInt` to skip |
| HexColor.ParseSixDigits | assets/js/main.js:217 | `parseInt` of six hex digits is the number they spell |
| HexColor.TwoMoreDigits | assets/js/main.js:217 | each further pair of digits multiplies the value so far by 256 and adds the pair's byte |
| HexColor.SixDigitValue | assets/js/main.js:217 | six hex digits spell `65536 * hi + 256 * mid + lo` from their three digit pairs |
| HexColor.ChannelIs | assets/js/main.js:218-220 | shifting a 32-bit value right by `s` and masking with 255 yields the byte at `s` |
| HexColor.SixDigitChannels | assets/js/main.js:217-220 | the three channels read from six hex digits are their three digit pairs |
| HexColor.SixAfterHash | assets/js/main.js:210-216 | a `#` and six characters lose the `#` and are not expanded |
| HexColor.ThreeAfterHash | assets/js/main.js:210-216 | a `#` and three characters become six characters, each of the three doubled |
| HexColor.DoubledDigitChannels | assets/js/main.js:217-220 | six hex digits in equal pairs give channels of 17 times each pair's digit |
| HexColor.ChannelsOfBytes | assets/js/main.js:218-220 | shifting by 16, 8 and 0 and masking recovers the three bytes of a 24-bit value |
| HexColor.SixDigitColour | assets/js/main.js:209-222 | for `#rrggbb` the channels are the values of the three digit pairs |
| HexColor.ThreeDigitColour | assets/js/main.js:209-222 | for `#rgb` each channel is 17 times its digit |
| JoyBand.PalettesShape | assets/js/main.js:196-201 | four palettes of four colours |
| JoyBand.PaletteColoursAreSixDigit | assets/js/main.js:196-201 | every palette colour is `#` followed by six hex digits |
| JoyBand.TileSize | assets/js/main.js:380-382 | the columns' widths and the gaps between them fill the band's inner width; the height is the width times the aspect |
| JoyBand.StyleOf | assets/js/main.js:303-306 | one accent per tile; tile `i` gets the palette's colour `i` modulo the palette's length |
| JoyBand.GradientColours | assets/js/main.js:309-310 | the two gradient colours are written at opacity 0.3 and 0.2 |
| JoyBand.GradientOf | assets/js/main.js:309-310 | the gradients are the palette's first colour at 0.3 and its second at 0.2; the `palette[0]` default never applies |
| JoyBand.Band.constructor | assets/js/main.js:196-205 | the band starts with the four fixed palettes, no slots, no assignment and palette 0 |
| JoyBand.Band.ApplyPalette | assets/js/main.js:302-314 | styles the tiles from the current palette, then, if asked, advances the index modulo the number of palettes; the index stays a valid palette |
| JoyBand.Band.DisableBand | assets/js/main.js:232-253 | slots and assignment are cleared |
| JoyBand.Band.LayoutBand | assets/js/main.js:363-401 | a disabled tier clears the layout. An enabled tier has one slot per tile, along the snake path. The assignment is the identity on the first layout and unchanged on a relayout. The palette is applied without advancing. The bijection invariant, and the invariant that the assignment is a rotation of the first layout, hold throughout |
| JoyBand.Band.AnimateCycle | assets/js/main.js:335-361 | with no slots nothing changes. Otherwise the assignment is rotated, with the same multiset of slots, and every tile moves one slot back (slot 0 wrapping to the last). The bijection and the invariant that the assignment is a rotation of the first layout are kept, and the palette advances after styling with the old one |
| JoyBand.Band.RotateAssignments | assets/js/main.js:340 | `unshift(pop())` rotates the assignment and moves every tile one slot back, slot 0 wrapping to the last, keeping the band's invariant |
| JoyBand.CycleStepIsAdjacent | assets/js/main.js:340 | on a band reached by layouts and cycles, every tile the cycle does not wrap moves between two consecutive snake stops, which are neighbouring grid cells |
| JoyBand.Band.ManualCycle | assets/js/main.js:426-432 | a forced cycle happens exactly when the band is laid out |
| JoyBand.Band.PointerDown | assets/js/main.js:439-448 | ignored on mobile or under reduced motion; otherwise it arms a press at the pointer's position |
| JoyBand.Band.PointerMove | assets/js/main.js:450-458 | the first move of an armed press farther than 26px is a drag. It forces a cycle when the band is laid out: the assignment rotates and the palette index advances modulo the palette count. Anything else changes nothing |
| JoyBand.Band.EndPointer | assets/js/main.js:460-474 | an armed press that never dragged is a tap and forces a cycle, which rotates the assignment and advances the palette index modulo the palette count; the press is always disarmed |
| JoyBand.Band.PointerLeave | assets/js/main.js:475-478 | disarms the press without cycling |
| JoyBand.Band.KeyDown | assets/js/main.js:480-485 | Enter or Space forces a cycle exactly when motion is allowed and the band is laid out; the cycle rotates the assignment and advances the palette index modulo the palette count |
| GivingTracker.RoundedHundredth | assets/js/main.js:151 | `Math.round(goal * 0.01)`: the nearest integer to `goal / 100`, halves rounded up |
| GivingTracker.BaseIncrement | assets/js/main.js:151 | the base increment is the larger of 1500 and a hundredth of the goal |
| GivingTracker.Tick | assets/js/main.js:150-158 | at or past the goal a tick keeps the total; below it the total rises by at least `min(500, what is left)` and stays at or below the goal |
| GivingTracker.AmountAfter | assets/js/main.js:138-159 | a run of ticks never lowers the total |
| GivingTracker.Increment | assets/js/main.js:150-155 | a simulated donation is positive, at least `min(500, what is left)`, at most what is left, and for a draw in [0, 1) at most the goal-scaled base |
| GivingTracker.SupporterGrowth | assets/js/main.js:157 | each tick adds between 5 and 19 supporters |
| GivingTracker.NeverOvershoots | assets/js/main.js:138-159 | from at or below the goal, any run of ticks raises the total but never past the goal |
| GivingTracker.StopsAtGoal | assets/js/main.js:142-148 | once the goal is reached ticks change nothing |
| GivingTracker.ReachesGoal | assets/js/main.js:150-158 | whatever the random draws, `ceil((goal - current) / 500)` ticks reach the goal exactly |
| GivingTracker.Tracker.constructor | assets/js/main.js:68-74 | `Number(attr) \|\| default`: a goal of 0 becomes 1, the other counters default to 0, and nothing runs yet. The ceiling the total may never pass is the larger of the goal and the configured starting total |
| GivingTracker.Tracker.AnimateState | assets/js/main.js:98-102 | ignored while an animation runs; otherwise it starts one towards the given target |
| GivingTracker.Tracker.FinishAnimation | assets/js/main.js:117-132 | the last frame commits the target counters and stops the timer once the goal is reached. The total never decreases and stays at or below the goal (or the configured start, if that was already above it) |
| GivingTracker.Tracker.Activate | assets/js/main.js:163-176 | only the first sighting animates to the configured counters and starts the timer when the interval is positive. A later sighting changes nothing, and an animation already running keeps its targets |
| GivingTracker.Tracker.ScheduleUpdate | assets/js/main.js:138-159 | skipped while animating, keeping the timer and the targets. At the goal it clears the timer and leaves the targets. Otherwise the target is at least `min(500, what is left)` above the total and at most the goal, with 5 to 19 more supporters |
| SiteNav.NavMenu.constructor | assets/js/main.js:17-18 | the menu starts open exactly when the viewport is wider than 1024px |
| SiteNav.NavMenu.SetExpanded | assets/js/main.js:12-15 | `aria-hidden` is always the negation of `aria-expanded` |
| SiteNav.NavMenu.Toggle | assets/js/main.js:20-23 | a toggle click flips the menu |
| SiteNav.NavMenu.LinkClicked | assets/js/main.js:25-31 | a link click closes the menu on a narrow viewport and changes nothing otherwise |
| SiteNav.NavMenu.BreakpointChanged | assets/js/main.js:33-37 | crossing the breakpoint opens the menu when wide and closes it when narrow |
| SiteNav.NewsletterForm.constructor | assets/js/main.js:44-45 | the form's field, note and focus as found on the page |
| SiteNav.NewsletterForm.Submit | assets/js/main.js:47-58 | a missing or empty address is refused, focusing the field and changing nothing else; otherwise the field is cleared and the note thanks the reader |
| DonationConfig.TrimAttr | assets/js/givebutter.js:4 | `attr?.trim()`: absent stays absent, present is trimmed |
| DonationConfig.ResolveSlug | assets/js/givebutter.js:3-7 | no slug exactly when the attribute is absent or all white space; otherwise the non-empty trimmed attribute |
| DonationConfig.ToLowerAscii | assets/js/givebutter.js:19 | lower-casing keeps the length |
| DonationConfig.StartsWithUtm | assets/js/givebutter.js:19 | a name that passes the prefix test has at least four characters, the fourth being `_` |
| DonationConfig.StartsWithUtmCases | assets/js/givebutter.js:19 | a name passes the prefix test exactly when it starts with `u`, `t`, `m` in either case followed by `_` |
| DonationConfig.Lookup | assets/js/givebutter.js:21 | a name has a value in the query exactly when some pair carries it |
| DonationConfig.RemoveName | assets/js/givebutter.js:21 | removing a name leaves no pair with it and every other name unaffected |
| DonationConfig.ReplaceFirst | assets/js/givebutter.js:21 | the name then occurs once, with the new value; every other name is unaffected |
| DonationConfig.SetParam | assets/js/givebutter.js:21 | `URLSearchParams.set`: afterwards exactly one pair has the name and it holds the new value; every other name's count and value are unchanged |
| DonationConfig.CountAppend | assets/js/givebutter.js:21 | appending a new name adds one pair with it and affects no other name |
| DonationConfig.FilterUtm | assets/js/givebutter.js:15-23 | the `forEach` loop builds exactly the tracking map and the fallback query that the definitions over the whole query string give |
| DonationConfig.UtmMap | assets/js/givebutter.js:18-20 | every tracked name passes the prefix test |
| DonationConfig.UtmQuery | assets/js/givebutter.js:15-23 | the fallback query holds each name at most once, and only names that pass the prefix test |
| DonationConfig.UtmMapKeys | assets/js/givebutter.js:18-20 | a name is tracked exactly when it passes the prefix test and occurs in the query string |
| DonationConfig.UtmMapLastWins | assets/js/givebutter.js:20 | a tracked name keeps its spelling and the value of its last occurrence |
| DonationConfig.UtmQueryMatchesMap | assets/js/givebutter.js:15-23 | a tracked name occurs exactly once in the fallback URL's query, with the tracked value. Every other name is absent from it |
| DonationConfig.Configure | assets/js/givebutter.js:2-23 | the script stops exactly when the slug is absent or blank. Otherwise it keeps the trimmed slug and default embed id and the tracking map, and builds the fallback URL `https://givebutter.com/<slug>` with exactly the tracked pairs |
| DonationWidget.IsReady | assets/js/givebutter.js:69 | the library is ready exactly when the global exists and has `widgets` or `Widget` |
| DonationWidget.SelectApi | assets/js/givebutter.js:105 | an API object is found exactly when the global is ready; `widgets` is preferred to `Widget` |
| DonationWidget.AfterLoad | assets/js/givebutter.js:97-108 | nothing loaded clears the inline loading state when there is a container. The widgets are used exactly when the readiness test holds, through the selected API |
| DonationWidget.ResolveEmbedId | assets/js/givebutter.js:120 | the trimmed attribute when it is non-empty, else the default |
| DonationWidget.NoEmbedIdIffBlank | assets/js/givebutter.js:120-121 | there is no usable embed id exactly when the attribute is absent or blank and the default is absent or empty |
| DonationWidget.Theme | assets/js/givebutter.js:143 | the theme attribute when non-empty, otherwise `light`; never empty |
| DonationWidget.InlineConvention | assets/js/givebutter.js:138-160 | `create` when present, `mount` only without `create`, the callable only without both |
| DonationWidget.InitializeInline | assets/js/givebutter.js:115-164 | no container does nothing. Without an embed id the fallback button is offered instead of any call. Otherwise at most one convention is called, in priority order, with the resolved id and theme. An error it throws is caught and logged |
| DonationWidget.BindPopup | assets/js/givebutter.js:171-187 | a trigger's configuration uses its own popup id and theme. Its instance can open only if `create` exists, did not throw and returned something with `open`. A throwing `create` is logged |
| DonationWidget.BindPopups | assets/js/givebutter.js:166-222 | every trigger is bound from its own attributes and its own `create` result |
| DonationWidget.OpenViaApi | assets/js/givebutter.js:189-217 | a click uses `instance.open`, else `widgets.open`, else the callable, else the fallback URL. The fallback opens exactly when no route exists or the chosen call throws. Only a thrown error is logged |

## Left out

- Timers, animation frames and the `anime` library are not modelled: `cycleTimer`, `resizeRaf`, `stopCycle`, the visibility handler, the resize debounce, and the tracker's easing frames and `performance.now()`. The tracker keeps only whether its repeating timer is set. An animation is modelled by its start (`AnimateState`) and its last frame (`FinishAnimation`).
- The DOM is not modelled: writes of styles, classes and attributes, `applyPositions`, `innerHTML`, the fallback button's markup, and event-listener wiring. Each handler is modelled by the decision it makes and the state it changes.
- Floating point is not modelled. Tile sizes, slot offsets and aspect ratios are exact reals. `goal * 0.01` is taken as exactly `goal / 100`. Amounts and supporter counts are integers, and `Intl` formatting is not modelled.
- JoyBand.Band.PointerMove: pointer coordinates are integers, and `Math.hypot(dx, dy) > 26` is written as `dx² + dy² > 26²`, which agrees for exact arithmetic.
- GivingTracker.Tracker.AnimateState: while no animation runs, the target is required to lie between the current total and the ceiling, the larger of the goal and the configured starting total. Both callers meet this: `Activate` passes the current total, which may exceed the goal, and `ScheduleUpdate` passes a total at most the goal. So the invariant "the total never passes the ceiling" can be kept in the class.
- The `IntersectionObserver`, `MutationObserver`, script injection, the 200 ms / 5 s polling in `loadGivebutter`, and the early return when the page has neither an inline container nor a popup trigger are not modelled. The widget model starts from the value the loader resolves with (`AfterLoad`).
- `window.open`, `console.warn` and the Givebutter widget's own behaviour are not modelled. An opened fallback URL and a logged warning are result flags, and whether a library call throws is a parameter.
- URL parsing and serialization are not modelled: percent-encoding, a slug containing `?` or `#`, and the parsing of `location.search` into pairs. The query string is given as a sequence of decoded pairs, and the fallback URL as its base plus its query pairs.
- DonationConfig.StartsWithUtm: `toLowerCase` is modelled for ASCII only. No other character lower-cases to `u`, `t`, `m` or `_`, so the prefix test is unaffected.
- HexColor.Expand: strings are sequences of code points, while JavaScript's `length` counts UTF-16 code units. A value holding a character outside the Basic Multilingual Plane is measured differently: `#a` followed by an emoji has three code units, so the script expands it, but two code points, so the model keeps it. The palette colours are ASCII.
- HexColor.WithOpacity: `parseInt` is exact on unbounded integers. Beyond 2^53 the JavaScript value loses precision, which cannot happen for the palette's six-digit colours.
- The current-year footer text reads the clock and is not modelled.
- HexColor.WithOpacity: the concrete `rgba` values of the four palettes are not computed. `GradientOf` and `SixDigitColour` give them symbolically.
