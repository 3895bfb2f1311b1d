# Tabbed solar-system page: a verified model of its page logic

This project models the page script of a static informational page,
`script.js`. The script has two behaviours.

- **Tab switching.** A click on a `.tab` element clears the `active` class of
  every tab and every `.tab-content` panel. It then sets that class on the
  clicked tab and on the element whose id is the tab's `data-tab` value, and
  scrolls the page to the top.
- **Proportional planet sizing.** The script loads every `.planet-image` off
  screen to measure its natural size. A counter bumped by both the load and
  the error callbacks acts as a join barrier. Once every image has completed,
  one sizing pass runs. The pass looks for the first record labelled `sun` and
  returns if there is none. Otherwise the sun's height is the viewport width.
  Every other image's height is that height times its ratio from the static
  `planetSizes` table, or 0.33 when the label is not in the table. Every width
  keeps the image's own aspect ratio. The first pass that finds the sun also
  registers one window `resize` listener. That listener re-runs the pass on the
  cached measurements.

Files:

- `seqs.dfy` (module `Seqs`): `Option`, and `First`, the first index whose
  element passes a test. `Array.prototype.find` and `document.getElementById`
  both search this way.
- `sizing.dfy` (module `Sizing`): the ratio table and its fallbacks, the
  reference and planet size formulas, and `SizedStyles`, the effect of one
  sizing pass on the inline sizes of the image elements. It also holds the
  lemmas about them.
- `scaler.dfy` (module `Scaler`): class `PlanetScaler`. Its fields are the
  script's state: `imagesData`, `loadedCount`, `storedImagesData`,
  `window.planetResizeHandlerAdded`, the number of registered resize listeners
  and the inline size of each image element. The browser callbacks are methods
  (`OnLoad`, `OnError`, `Resize`). Each load completion is one call, in any
  order.
- `tabs.dfy` (module `Tabs`): class `TabController`, with the `active` flags of
  the tabs and panels as arrays and the click handler as `Click`.

Pixel arithmetic is over exact `real`s. The viewport width
(`window.innerWidth`) is a parameter of the call that triggers a pass.

Two behaviours of the code worth stating plainly:
- A failed load (script.js:103-109) counts toward the barrier but pushes no
  measurement record.
- When no element has the tab's `data-tab` id, script.js:16 throws at the
  lookup. The flags are then already cleared and the clicked tab is active,
  and the scroll reset never runs. `Click` returns `NoSuchPanel` in that
  state. An empty id never matches, because an element whose `id` attribute
  is empty has no ID.

## Model

| member | source | states |
|---|---|---|
| `Seqs.First` | script.js:117 | the result is the first index whose element passes the test, and None exactly when no element passes it |
| `Sizing.StoredRatio` | script.js:84 | the ratio stored at measurement time is the table's value for a label in the table and 1 otherwise, and lies in (0, 1] |
| `Sizing.SizingRatio` | script.js:137 | the sizing ratio is the table's value for a label in the table and 0.33 otherwise; it lies in (0, 1] and is below 1 for every label other than `sun` |
| `Sizing.RatioOr` | script.js:84 | the lookup with a fallback: the table's value for a label in the table (no entry is 0, so none is falsy), the fallback for any other label |
| `Sizing.FindSun` | script.js:117 | the result is the index of the first record labelled `sun`, and None exactly when no record is |
| `Sizing.RatioTableBounds` | script.js:54-64 | every table value lies in (0, 1]; `sun` is in the table with 1.0 and every other body is below 1 |
| `Sizing.RatioTableOrdered` | script.js:51-64 | the table's keys are exactly mercury, mars, venus, earth, neptune, uranus, saturn, jupiter, sun; the values strictly increase in that order; the last is the sun with 1.0 |
| `Sizing.ReferenceSize` | script.js:120-126 | the sun's height equals the viewport width, and its width keeps the sun's natural aspect ratio (width × naturalHeight = height × naturalWidth) |
| `Sizing.PlanetSize` | script.js:137-144 | a planet's height is the sun's height times the table ratio with the 0.33 fallback; its width keeps its own natural aspect ratio; on a non-negative sun height it lies between 0 and the sun's height |
| `Sizing.SizeOthers` | script.js:133-149 | the `forEach` over the records keeps the number of elements; what it writes is proved in `SizeOthersKeeps` and `SizeOthersWrites` |
| `Sizing.SizedStyles` | script.js:115-149 | one pass of `applyProportionalSizes` keeps the number of elements; what it writes is proved in `SizedStylesEffect` and `SizedStylesWithoutSun` |
| `Sizing.SizeOthersKeeps` | script.js:133-134 | an element that no non-`sun` record refers to keeps its size through the `forEach` |
| `Sizing.SizeOthersWrites` | script.js:133-148 | with one record per element, each non-`sun` record's element ends with that record's planet size |
| `Sizing.SizedStylesEffect` | script.js:117-149 | when some record is labelled `sun`: the first one gets the reference size, every non-`sun` record gets its planet size, and every other element keeps its size; further `sun` records and images that failed to load are untouched |
| `Sizing.SizedStylesWithoutSun` | script.js:117-118 | with no `sun` record, a pass changes no element's size |
| `Sizing.ResizeOverrides` | script.js:151-157 | a pass over the cached records after an earlier pass gives the same sizes as a pass from the original sizes: the result depends only on the records and the new viewport width |
| `Sizing.StoredRatioUnused` | script.js:133-144 | changing the `sizeRatio` stored in the records never changes the outcome of a pass |
| `Sizing.PlanetsShorterThanSun` | script.js:120-140 | on a positive viewport width every non-`sun` image is strictly shorter than the sun and has positive height |
| `Sizing.HeightsFollowOrder` | script.js:52-63 | a body earlier in the table's order is drawn strictly shorter than a later one |
| `Sizing.WorkedExample` | script.js:120-148 | viewport 1000, sun 2000 × 1000 and mercury 100 × 100 give a 2000 × 1000 sun and a 330 × 330 mercury |
| `Scaler.CountReachedMeansAll` | script.js:94-108 | the counter reaching the image count happens exactly when every image has completed |
| `Scaler.MeasurementsGrow` | script.js:81-92 | pushing the record of a newly loaded image keeps one record per successful load, with distinct elements |
| `Scaler.PlanetScaler.BeforeBarrier` | script.js:94-108 | while some image has not completed, no pass has run, nothing is cached and no resize listener is registered |
| `Scaler.PlanetScaler.NoImagesNoPass` | script.js:74-75 | on a page without planet images the sizing pass never runs, nothing is cached and no listener is registered |
| `Scaler.PlanetScaler.constructor` | script.js:69-111 | every load started, none completed: no records, counter 0, nothing cached, flag clear, no listener, every element at its intrinsic size |
| `Scaler.PlanetScaler.ApplyProportionalSizes` | script.js:115-160 | the element sizes become `SizedStyles` of the records at the given width; the flag is set iff it was set or the records hold a `sun`; at most one listener exists, exactly when the flag is set |
| `Scaler.PlanetScaler.CountCompletion` | script.js:94-108 | the counter grows by one; when it then equals the image count the records are cached in `storedImagesData` and one pass runs on them (sizes become `SizedStyles`, the flag records whether a `sun` was found); otherwise nothing is cached, no size changes and no listener exists |
| `Scaler.PlanetScaler.OnLoad` | script.js:81-101 | appends the image's record with the stored ratio, bumps the counter, and runs the pass exactly when this completion makes the counter equal the image count; otherwise no size and no flag changes; the invariant keeps one record per successful load and at most one pass and one listener |
| `Scaler.PlanetScaler.OnError` | script.js:103-109 | bumps the counter without adding a record, and runs the pass exactly when the counter reaches the image count |
| `Scaler.PlanetScaler.Resize` | script.js:151-157 | with the listener registered and a non-empty cache, sizes become `SizedStyles` of the cached records at the new width; otherwise nothing changes; measurements, cache, counter and flag never change |
| `Tabs.GetElementById` | script.js:16 | the result is the first panel whose id is the given non-empty id, and None exactly when the id is empty or no panel has it |
| `Tabs.ExactlyOneActive` | script.js:11-15 | after clearing all flags and setting one, exactly that position is set and the count of set flags is 1 |
| `Tabs.TabController.constructor` | script.js:3-4 | the page's tabs and panels with the `active` classes their markup gives |
| `Tabs.TabController.Click` | script.js:6-43 | the clicked tab is the only active tab; when the tab's `data-tab` id is non-empty and some panel has it, the first such panel is the only active panel and the scroll position is (0, 0); otherwise (including an empty `data-tab`) the result is `NoSuchPanel`, no panel is active and the scroll position is unchanged |

## Left out

- The scroll reset (script.js:18-43) runs at four points in time: at once,
  after one and two animation frames, and after 50 ms. The model performs it
  once, as an assignment of (0, 0) to the scroll position. It is the value that
  all four leave behind.
- Browser and DOM APIs are plain data: `querySelectorAll`, `classList`,
  `getAttribute`, `addEventListener` and `new Image()`. Elements are indices,
  class lists are boolean arrays, inline styles are an array of sizes, and
  registering the listener is a counter.
- `document.getElementById` searches the whole document. The model searches
  only the `.tab-content` panels. An element that is both a tab and a panel is
  not modelled.
- A missing `data-planet` or `data-tab` attribute yields `null` in the source.
  The model has no separate case for it. Its string form `"null"` behaves like
  any other label: it is not in the table and it is not `sun`.
- Labels that JavaScript objects inherit, such as `toString`, would make the
  `planetSizes` lookup yield a function. The table is modelled as a plain map
  of its nine entries.
- IEEE-754 rounding, and the `${x}px` strings written to `style.width` and
  `style.height`, are not modelled. Sizes are exact reals.
- `Scaler.PlanetScaler.OnLoad`: requires a positive natural height. That rules
  out the Infinity and NaN sizes that a zero-height image gives in the source.
- The asynchronous order of load callbacks is not modelled as concurrency.
  Each completion is one method call, in any order. `OnLoad` and `OnError`
  require the image not to have completed yet, because the browser fires
  exactly one of the two, once, per image.
- `storedImagesData = imagesData` makes the cache share the array in the
  source. The model copies the value. No callback can push after the barrier,
  because every image has then completed, so the two agree.
- `window.innerWidth` is a parameter of `OnLoad`, `OnError` and `Resize`. It is
  the width at the moment the pass reads it.
- vite.config.js (a recursive copy of the data directory in a Vite plugin) and
  build.js (a call to Vite's `build` and `process.exit`) are not part of this
  model. They are file-system and process I/O around the bundler.
