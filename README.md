# Lesson design map editor — verified model of its logical core

The editor (`script.js`) is a browser page where a teacher plans a lesson as a
list of learning activities. Each activity has:

- an interaction type, which is the social plane;
- an active-learning process;
- a key application of technology;
- a time in minutes;
- details and a tool.

From the complete activities the page draws a *design map*. Each activity is a
box on a grid: its row is its interaction type and its column is its place in
id order. Arrows join consecutive boxes. The page also draws three pie charts
of minutes per category.

This project models the part of that page that is logic rather than markup:

- `JsText` (`text.dfy`): the JavaScript built-ins the logic depends on.
  - `parseInt(s, 10)`: leading white space, one sign, the digit run; NaN becomes `None`.
  - `Math.max(0, parseInt(..) || 0)`.
  - `split` with one separator character, and `join`.
  - ASCII upper-casing.
  - `findIndex`.
- `Activities` (`activity_store.dfy`): the activity store. It is the class
  `ActivityStore` with three fields:
  - the `activities` array;
  - `activityCounter`;
  - the `data-id` of every form block in display order. `renumberActivities`
    reads that order back from the page.

  Its methods are `addActivity`, `handleActivityChange`, `deleteLastActivity`,
  the delete button (`handleActivityClick`), `renumberActivities`, the replay
  part of `loadState`, and `init`. The renumbering loop is modelled as written:

  - `find` searches the array whose ids the same loop is reassigning.
  - `RenumberPass` proves that this loop gives the same result as looking every
    block up in the original list. This holds because block ids are ascending.
- `Labels` (`labels.dfy`): `formatTechIntegration`, `formatKeyAppLabel`, and
  the lookup from a key-application code to its label.
- `DesignMap` (`design_map.dfy`): what `generateMap`, `renderMap` and
  `buildArrowsSvg` compute:
  - which activities are drawn;
  - the stable sort by id;
  - the total time, and the mismatch against the planned duration;
  - the row and column of each box;
  - the integer geometry of every arrow.
- `Charts` (`charts.dfy`): `updateCharts`, which totals minutes per category on
  three axes, and `applyPieChart`, which computes cumulative slice angles and
  the label rule.
- `Generate` (`generate_map.dfy`): `generateMap`, which draws the map and the
  charts, or refuses when no activity is complete.

Form controls are modelled as strings, and the time field is parsed as the code
parses it. Angles are exact `real`s.

A note on ids. `addActivity` builds the record with `...activityData` last
(script.js:91), so a stored `id` replaces the counter value on the record. The
form block, however, always gets the counter value (script.js:97). The model
follows this:

- `NewActivity` lets a supplied id win.
- `LoadedSyncedIff` states exactly when the ids of a loaded list still follow
  the display order.

Likewise, a chart whose total is 0 still produces one stop per category, every
stop spanning 0 degrees (`EmptyPie`), as the code does. It is not a chart with
no slices.

## Model

| member | source | states |
|---|---|---|
| JsText.MinutesOfDecimal | script.js:360-363 | a time field holding a number, optionally followed by text that does not start with a digit, counts that number of minutes, and a negative number counts 0 |
| JsText.ParseIntOfDecimal | script.js:205-222 | `parseInt` reads back the decimal text of any integer (an id written to `data-id`), whatever non-digit text follows |
| JsText.Split | script.js:627 | `split` with one separator character yields at least one piece, and no piece contains the separator |
| JsText.JoinSplit | script.js:625-630 | joining the pieces of a split with the same separator gives back the original text |
| JsText.SplitJoin | script.js:632-637 | splitting a join of separator-free pieces gives back the pieces |
| JsText.IndexOf | script.js:422-423 | `findIndex` gives the first position holding the key, and gives none exactly when the key is absent |
| Activities.FirstWithId | script.js:160 | `find` by id gives the first record with that id, and gives none exactly when no record has it |
| Activities.NormalizeTimeNonNegative | script.js:161-169 | a stored time never parses to a negative number and stands for the same minutes as the typed value |
| Activities.ChangeActivityEffect | script.js:155-171 | an edit changes only the named field of the first record with the id (a time through the negative-to-"0" rule); an unknown id changes nothing; ids and length are kept |
| Activities.WithoutId | script.js:200 | the filter leaves no record with the deleted id and never lengthens the list |
| Activities.Renumbered | script.js:207-229 | the renumbered list has one record per form block and record i has id i + 1 |
| Activities.RenumberPass | script.js:205-232 | the loop that mutates ids while it searches yields exactly the lookup of each block's old id in the original list (fields kept, blank fields when none matches) under id index + 1, and the blocks are renumbered 1..N |
| Activities.RenumberSyncedIdentity | script.js:205-232 | renumbering a store already numbered 1..N in display order changes nothing |
| Activities.LookupWithoutId | script.js:200-209 | filtering out one id leaves the record found for every other id unchanged |
| Activities.DeleteCarriesFields | script.js:190-203 | after a delete by id, every remaining block gets the same record it would have got before the filter |
| Activities.DeleteShiftsLater | script.js:190-203 | deleting block k from a store numbered 1..N removes exactly the k-th record; earlier records are unchanged and later ones move up one place under their new position's id |
| Activities.DeleteAbsentIsNoOp | script.js:190-203 | deleting an id that no block carries leaves a store numbered 1..N as it was |
| Activities.DeleteLastKeepsPrefix | script.js:178-188 | deleting the last activity of a store numbered 1..N keeps every other record unchanged |
| Activities.Replayed | script.js:273-280 | replaying the stored list gives one record per stored entry |
| Activities.LoadSavedRoundTrip | script.js:234-280 | loading what `saveState` wrote reproduces the activity list field for field |
| Activities.LoadedSyncedIff | script.js:83-92 | after a load, record i has id i + 1 for every i exactly when no stored entry carries an id other than its position |
| Activities.ActivityStore.constructor | script.js:1-2 | the store starts empty, with the counter at 0 |
| Activities.ActivityStore.AddActivity | script.js:79-93 | the counter goes up by one; exactly one record (defaults '' and time '5', overridden by supplied fields, the id included) and one block with the counter value are appended |
| Activities.ActivityStore.HandleActivityChange | script.js:155-176 | the records become the result of the edit, blocks and counter are unchanged, and numbering 1..N is preserved |
| Activities.ActivityStore.RenumberActivities | script.js:205-232 | records follow the block order with ids 1..N, blocks are numbered 1..N, and the counter equals the length |
| Activities.ActivityStore.DeleteLastActivity | script.js:178-188 | a no-op on an empty list; otherwise the last block and record go and the rest is renumbered 1..N |
| Activities.ActivityStore.DeleteActivity | script.js:190-203 | the block with the id and every record with the id go, and the rest is renumbered 1..N |
| Activities.ActivityStore.LoadState | script.js:257-287 | the store is reset, and `addActivity` is replayed over the stored list, which leaves the counter at its length |
| Activities.ActivityStore.Init | script.js:42-48 | a restored snapshot is replayed; without one the store holds the single default activity 1 |
| Labels.FormatTechIntegrationPointwise | script.js:625-630 | `formatTechIntegration` keeps the length, turns each '-' into a space, upper-cases the first character of each piece and leaves the rest alone |
| Labels.WordsOfJoin | script.js:634 | the non-empty words of single-space-joined words are those words |
| Labels.FormatKeyAppLabelShort | script.js:632-635 | an empty label gives '', and a label of at most two words is kept as typed |
| Labels.FormatKeyAppLabelLines | script.js:632-640 | a label of more than two words becomes two lines joined by `<br>`; read back, the lines give the label's words in order, ⌈n/2⌉ on the first line and ⌊n/2⌋ on the second |
| Labels.KeyAppLabel | script.js:422 | a known key-application code gives its label, and any other code gives the code itself |
| DesignMap.Filled | script.js:325 | the drawn activities are exactly the complete ones, each as often as it occurs |
| DesignMap.FilledEmptyIff | script.js:325-330 | nothing is drawn exactly when no activity is complete |
| DesignMap.SortById | script.js:358 | the sort gives ascending ids and a permutation of its input |
| DesignMap.InsertPermutes | script.js:358 | one insertion step of the sort adds the record and loses none |
| DesignMap.SortByIdStable | script.js:358 | records with equal ids keep their relative order |
| DesignMap.TotalTimeSorted | script.js:358-363 | sorting does not change the total time |
| DesignMap.DurationMismatch | script.js:334-365 | a duration field holding a number n (optionally followed by non-digit text) is planned as n, and the warning shows iff n ≥ 0 and n differs from the total; an empty field is planned as 60, so the warning shows iff the total is not 60 |
| DesignMap.RowOf | script.js:424 | the row of a known interaction type is its place (1 to 4) in the fixed order; an unknown one gives 0 |
| DesignMap.BuildArrowsSvg | script.js:468-509 | there is no arrow layer for fewer than two activities; otherwise one connector per consecutive pair from slot to slot at the row centres, straight iff the rows agree, axis-parallel and ending horizontally, in a 240·n by 600 view box |
| DesignMap.ConnectorSpan | script.js:481-494 | every connector ends 18 units right of its start |
| DesignMap.RenderMap | script.js:332-466 | the title falls back to "Lesson Design Map"; the total is over all drawn activities; the mismatch flag holds iff the planned duration is a number ≥ 0 that differs from it; the grid has one column per drawn activity (at least one); the boxes are those of the activities sorted by id, and the arrows are built from the boxes' rows; the technology header line is TechLine of the level |
| DesignMap.TechLineShown | script.js:392 | the technology-integration header line is missing exactly when the level is empty or "optional"; otherwise it is the level with each '-' turned into a space and each word capitalised |
| DesignMap.TagOfCode | script.js:422-423 | a box with a known key-application code shows that code's label, formatted by `formatKeyAppLabel`; a box with any other code shows the code itself, formatted |
| DesignMap.RenderMapCells | script.js:358-427 | one box per drawn activity, the sort being a permutation; ids ascend from left to right; box i sits in column i + 1 and in the row of its activity's interaction type, and carries that activity's id and key-application code |
| DesignMap.RenderMapArrows | script.js:468-500 | there are no arrows iff fewer than two activities are drawn; otherwise there is one connector per pair of neighbouring boxes, going from the slot of the first to the slot of the second at their rows |
| Charts.Keys | script.js:511-524 | each axis has distinct categories |
| Charts.BucketsStep | script.js:526-538 | an activity adds its minutes to the bucket of its category and to no other, or to none when the category is unknown |
| Charts.BucketsSum | script.js:526-538 | the buckets of an axis add up to the minutes of the activities whose category is known |
| Charts.BucketsOfTotal | script.js:526-538 | when every entry's category is one of the keys, the buckets account for every minute of the entries |
| Charts.EntriesTotal | script.js:358-363 | the minutes the charts add up are the minutes the map's total adds up |
| Charts.ChartTotalMatchesMap | script.js:358-363 | when every drawn activity has a known category on an axis, that chart's buckets add up to the map's total time |
| Charts.UpdateCharts | script.js:511-565 | the accumulation loop yields, for each axis, the per-category totals in declared order, and each becomes a pie |
| Charts.ApplyPieChart | script.js:567-610 | the `currentAngle` loop yields stops from the cumulative angle before each slice to the one after it, and the labels follow the label rule |
| Charts.LabelRule | script.js:581-600 | a label is hidden iff the total is 0, the value is 0, or 20·value < total (under 18°); its radius is 28 iff 9·value < total (under 40°), otherwise 36 |
| Charts.StartAngleShare | script.js:569-577 | a slice starts at the share of the slices before it times 360 |
| Charts.FullTurn | script.js:569-577 | with a positive total, the slices together span exactly 360° |
| Charts.PieClosesCircle | script.js:569-577 | a chart with a positive total starts at 0°, has no gaps or overlaps, never runs backwards and closes at 360° |
| Charts.EmptyPie | script.js:569-588 | a chart with total 0 has every stop at 0° and no label |
| Generate.InteractionChartMatchesMap | script.js:340-353 | when every drawn activity has a known interaction type, the interaction chart adds up to the map's total time |
| Generate.GenerateMap | script.js:324-353 | nothing is drawn iff no activity is complete; otherwise the map and the three charts are drawn from the complete activities, and with known interaction types the interaction chart adds up to the map's total |

## Left out

- The markup: HTML strings, `innerHTML`, `querySelector`, event wiring,
  `switchTab`, `updateCharCounters`, `updateLegendValues` and the legend.
  - The form blocks are modelled only as their sequence of `data-id`s.
  - A box is modelled by its id, row, column and key-application code.
    `DesignMap.Tag` gives the tag it shows: the code's label, formatted
    by `formatKeyAppLabel`.
- Persistence:
  - `saveState` and the storage part of `loadState` (`localStorage`,
    `JSON.stringify`/`JSON.parse`, try/catch) are left out.
  - A snapshot is given to `Init` and `LoadState` as a list of optional fields.
  - A missing or unreadable snapshot is `None`.
  - Stored values that are not strings, and ids that are not numbers, are not
    modelled.
- The save indicator timer, `alert`, `confirm` and `location.reload`: these are
  timers and browser dialogs.
- The JPG and chart downloads (`html2canvas`, canvas drawing, `setTimeout`):
  these are foreign calls and asynchrony.
- Pie label coordinates (`Math.cos`/`Math.sin`) and the `toFixed` percentage:
  these are floating-point trigonometry and formatting.
- Charts.ApplyPieChart: angles are exact reals, not IEEE doubles. Rounding in
  the cumulative sum (a last stop of 359.99999…) is not modelled, and neither
  are the colours.
- Charts.UpdateCharts: a category such as `constructor` or `toString` is treated
  as unknown. In the code it finds a property inherited from `Object.prototype`,
  which is a quirk of plain-object dictionaries.
- JsText.ParseInt: two gaps.
  - It does not turn very large numbers into floating-point values or Infinity.
  - It skips only the listed white-space characters, not every Unicode space
    separator.
- JsText.ToUpper: upper-cases only ASCII letters; `toUpperCase` on other
  characters is not modelled.
- Activities.ActivityStore.RenumberActivities: requires the block ids to be
  ascending.
  - The store keeps them 1..N, and a delete removes one of them, so every call
    in the code meets this.
  - What the in-place loop would do on out-of-order ids is not modelled.
- Activities.ActivityStore.HandleActivityChange: the event is given as the
  parsed id, the field and the value. Writing '0' back into the input element is
  not modelled.
- Activities.ActivityStore.DeleteActivity: the id is given already parsed. The
  button's `data-id` always holds a block id.
- The page's other metadata fields (level, student profile, outcomes,
  prerequisites, learning issues) are only displayed, so they are not modelled.
