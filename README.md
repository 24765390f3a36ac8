# Spending heat map, day detail and add-entry form

A Dafny model of the logic in three screens of a mobile spending tracker:

- **The heat map** (`components/Heatmap.tsx`). It groups purchases by the calendar day of their ISO date text. For each day it sums the amounts, keeps the purchases in input order and collects the distinct categories, and it follows a running maximum of the day sums. It then emits one cell per day of a window of `numDays` days ending at `endDate`, each normalised by that maximum. Finally it lays the cells out in a week-by-weekday grid and draws each one as blank, a fill, or a fill plus an outline.
- **The day detail modal** (`components/DayDetailModal.tsx`). It keeps a local copy of the day's purchases, deletes optimistically by id and reports the id to its parent. It also shows the day total, colours the category badges and prints amounts with a comma as decimal separator.
- **The add-entry screen** (`app/add.tsx`). It is a two-step flow: choose a category, then fill the form. A guard refuses to save while a required field is empty. Saving hands a draft to storage as an entry or a favourite template, and failures are classified into alerts.

Modules:

- `Decimal` (`decimal.dfy`): decimal digits of naturals and their parse round trip.
- `Ledger` (`ledger.dfy`): the purchase record and the left-fold sum of amounts.
- `Heatmap` (`heatmap.dfy`): day keys, bucketing, the running maximum and the window of cells. `BucketEntries` and `BuildCells` are the imperative `forEach` and count-down `for` loop, proved against the functions `Bucket`, `RunningMax` and `Window`. Those functions are in turn tied to the filter-then-sum definitions `DayEntries`, `DayTotal` and `DistinctCategories`.
- `HeatmapGrid` (`heatmap_grid.dfy`): the grid position of each cell and the drawing choice of `HeatmapCell`.
- `DayDetail` (`day_detail.dfy`): the `DayDetailModal` class (its `localEntries` state, with a record of the ids passed to the parent), totals, badge colours and the euro amount text.
- `AddEntry` (`add_entry.dfy`): the `AddEntryScreen` class (category, step, field texts, date, picker visibility, the drafts handed to storage, whether the screen navigated back), the guard, the labels and the alert classification.

Modelling choices:

- **Dates in the heat map.**
  - An entry's date is its stored text, and its key is the text before the first `'T'` (`DateKey`).
  - A window day is an integer day number. Its key is `DayKey`, an injective decimal rendering.
  - `Stamp(d, time)` builds a stored date whose key is the key of day `d`, so the two ends meet.
  - The weekday of day 0 is Thursday, as for 1970-01-01.
- **Amounts.** Amounts are integer cents.
- **Intensity and opacity.** Both are `real`.
- **Category sets.** The JavaScript `Set` of categories is a duplicate-free sequence in first-insertion order. That is the order `Array.from` yields.
- **The running max.** The maximum is taken over every purchase the heat map receives (components/Heatmap.tsx:123-136). It is not limited to the window's days: a large purchase outside the window lowers every window cell's intensity, as `MaxIncludesDaysOutsideWindow` shows on a concrete input.
- **Non-negative amounts.** The maximum is a running maximum of partial sums. It equals the largest final day total only when amounts are non-negative. That is a precondition of `RunningMaxIsLargestDayTotal`, and `RunningMaxNeedsNonNegativeAmounts` shows that it is needed.

## Model

| member | source | states |
|---|---|---|
| Ledger.TotalAmount | components/DayDetailModal.tsx:197 | the left-fold `reduce` of the amounts; `TotalAmountConcat`, `TotalSplitsById` and `DeletionLowersTotal` carry its properties |
| Heatmap.DayKey | components/Heatmap.tsx:143 | the key of a window day never contains 'T'; `DayKeyInjective` makes it injective |
| Heatmap.Stamp | app/add.tsx:72 | the stored text of an instant on day d: the key of day d, 'T', then the time of day; `KeyOfStamp` states that it splits back to day d |
| Heatmap.Extend | components/Heatmap.tsx:128-133 | one `forEach` step on a bucket: amount added, purchase appended, category added to the set; `BucketIsFiltered` carries its effect |
| Heatmap.Bucket | components/Heatmap.tsx:123-133 | a day's bucket after the `forEach`; `BucketIsFiltered` equates it with the filter-then-sum definitions |
| Heatmap.RunningMax | components/Heatmap.tsx:121-136 | the running `max` after each entry; `RunningMaxBoundsEveryDay` and `RunningMaxIsLargestDayTotal` carry its properties |
| Heatmap.Intensity | components/Heatmap.tsx:150 | `max > 0 ? amount / max : 0`; `IntensityInUnitInterval` bounds it |
| Heatmap.CellOn | components/Heatmap.tsx:141-152 | the cell of one day; `EmptyCellIffNoEntryOfThatDay` and `StampedEntryLandsOnItsDay` carry its properties |
| Heatmap.Window | components/Heatmap.tsx:138-153 | exactly numDays cells; `WindowCellContents` states each cell's date and contents |
| Heatmap.DateKey | components/Heatmap.tsx:124 | the day key is a prefix of the date text without any 'T', followed in the text by 'T' unless it is the whole text |
| Heatmap.DateKeyUnique | components/Heatmap.tsx:124 | any prefix without 'T' that ends at a 'T' or at the end is the day key (`split('T')[0]`) |
| Heatmap.DayKeyInjective | components/Heatmap.tsx:143 | distinct window days have distinct keys |
| Heatmap.KeyOfStamp | components/Heatmap.tsx:124 | a date stamped on day d has the key of day d |
| Heatmap.Weekday | components/Heatmap.tsx:110 | `getDay()` lies in 0..6 |
| Heatmap.CategoryOrOther | components/Heatmap.tsx:132 | a purchase's category, or 'Other' when it has none or it is empty; never empty |
| Heatmap.AddDistinct | components/Heatmap.tsx:133 | `Set.add` keeps what was there as a prefix, holds exactly the old categories and the new one, and grows by one exactly when the category is new |
| Heatmap.BucketSnoc | components/Heatmap.tsx:123-133 | one step of the definition of `Bucket`: one more purchase extends only the bucket of its own key |
| Heatmap.RunningMaxSnoc | components/Heatmap.tsx:135 | one step of the definition of `RunningMax`: max rises to the updated bucket total exactly when that total exceeds it |
| Heatmap.SeedKeepsLookups | components/Heatmap.tsx:125-127 | creating the missing bucket as the empty day changes no lookup, and the key is then present |
| Heatmap.StoreExtended | components/Heatmap.tsx:128-135 | storing the extended bucket of an entry's key turns the buckets of s into those of s + [e], and max follows that bucket's new total |
| Heatmap.VisitEntry | components/Heatmap.tsx:123-136 | the `forEach` callback: run on the buckets and max of the entries visited so far, it leaves the buckets and max of those entries plus one |
| Heatmap.BucketEntries | components/Heatmap.tsx:120-136 | after the loop every key maps to the bucket of its purchases, missing keys to the empty day, and max is the running maximum |
| Heatmap.CellOfBucket | components/Heatmap.tsx:144-152 | the cell pushed for a day from its bucket is that day's cell |
| Heatmap.CellsAreWindow | components/Heatmap.tsx:138-153 | cells pushed one day at a time, oldest first, form the window, each dated endDate-(numDays-1-j) |
| Heatmap.BuildCells | components/Heatmap.tsx:119-155 | exactly numDays cells, cell i dated endDate-(numDays-1-i), equal to the window of cells; maxSpend is the running maximum |
| Heatmap.BucketIsFiltered | components/Heatmap.tsx:124-133 | a bucket is the sum, the in-order list and the distinct categories of exactly the purchases with that key |
| Heatmap.DayEntriesMembership | components/Heatmap.tsx:129 | a purchase is in a day's list iff it was supplied and has that day's key |
| Heatmap.DayEntriesConcat | components/Heatmap.tsx:129 | bucketing two lists one after the other concatenates their day lists |
| Heatmap.DistinctCategoriesSpec | components/Heatmap.tsx:131-133 | categories are duplicate-free, are exactly those of the day's purchases, and the first is the first purchase's |
| Heatmap.RunningMaxBoundsEveryDay | components/Heatmap.tsx:121-136 | max is at least 0 and at least every day's bucket total, for any amounts |
| Heatmap.BucketAmountNonNegative | components/Heatmap.tsx:128 | with non-negative amounts every day total is non-negative |
| Heatmap.RunningMaxAttained | components/Heatmap.tsx:121-136 | with non-negative amounts max is 0 on no input and otherwise the total of some supplied purchase's day |
| Heatmap.RunningMaxIsLargestDayTotal | components/Heatmap.tsx:121-136 | with non-negative amounts max is the largest day total over all supplied days, window or not |
| Heatmap.RiseThenFall | components/Heatmap.tsx:128-135 | 5.00 then -3.00 on one key give max 500 and a day total of 200 |
| Heatmap.RunningMaxNeedsNonNegativeAmounts | components/Heatmap.tsx:135 | with 5.00 then -3.00 on one day max stays 500 cents while the day total is 200 |
| Heatmap.WindowCellContents | components/Heatmap.tsx:138-153 | cell i is dated endDate-(numDays-1-i) and holds that day's total, purchases in input order and distinct categories |
| Heatmap.EmptyCellIffNoEntryOfThatDay | components/Heatmap.tsx:144 | a cell has no purchases iff none has its key, and then amount 0, no categories, intensity 0 |
| Heatmap.StampedEntryLandsOnItsDay | components/Heatmap.tsx:140-149 | a purchase shows up in the cell of its own day and of no other |
| Heatmap.RatioInUnitInterval | components/Heatmap.tsx:150 | amount/max lies in [0,1] for 0 <= amount <= max, and is 1 at the maximum |
| Heatmap.IntensityInUnitInterval | components/Heatmap.tsx:150 | with non-negative amounts every intensity lies in [0,1], all are 0 when max is 0, and the busiest day has 1 |
| Heatmap.MaxIncludesDaysOutsideWindow | components/Heatmap.tsx:121-136 | a large purchase outside a one-day window lowers the window cell's intensity to 0.1 |
| Heatmap.LargeDayFirst | components/Heatmap.tsx:123-136 | 100.00 on one key then 10.00 on another give the second key 1000 and max 10000 |
| Heatmap.ExampleSameDayPair | components/Heatmap.tsx:123-136 | 10.00 then 5.00 on one day give that day 1500, other days nothing, and max 1500 |
| Heatmap.ExampleBuckets | components/Heatmap.tsx:123-136 | 10.00 and 5.00 on one day and 3.00 on another give totals 1500, 0, 300 and max 1500 |
| Heatmap.ThreeDayExample | components/Heatmap.tsx:119-155 | over three days the cells hold 1500, 0 and 300 cents with intensities 1, 0 and 0.2 |
| HeatmapGrid.StartDay | components/Heatmap.tsx:107-110 | the weekday of the window's first day lies in 0..6 |
| HeatmapGrid.NumWeeks | components/Heatmap.tsx:113 | `ceil((numDays+startDay)/7)`: the fewest weeks whose days cover numDays+startDay |
| HeatmapGrid.Position | components/Heatmap.tsx:159-161 | the row lies in 0..6; `PositionInverse`, `PositionInjective` and `PositionInBounds` carry the rest |
| HeatmapGrid.Opacity | components/Heatmap.tsx:50 | `0.3 + 0.7 * intensity`; `OpacityRange` bounds it |
| HeatmapGrid.PositionInverse | components/Heatmap.tsx:159-161 | the index is recovered from its column and row |
| HeatmapGrid.PositionInjective | components/Heatmap.tsx:159-161 | distinct indices get distinct grid positions |
| HeatmapGrid.PositionInBounds | components/Heatmap.tsx:159-161 | the row is below 7 and the column below numWeeks |
| HeatmapGrid.PlaceCells | components/Heatmap.tsx:157-168 | placing keeps every cell, in order |
| HeatmapGrid.WindowGridLayout | components/Heatmap.tsx:157-161 | every window cell sits in its weekday's row inside numWeeks columns, no two on the same position |
| HeatmapGrid.PaletteColor | components/Heatmap.tsx:14-16 | the table's colour for a category, or the primary colour when it is missing or empty |
| HeatmapGrid.OpacityRange | components/Heatmap.tsx:50 | 0.3+0.7·intensity lies in [0.3,1] for intensity in [0,1] |
| HeatmapGrid.RenderCell | components/Heatmap.tsx:34-98 | blank in #2C2C2E with no category, a fill with one, fill plus outline with two or more; fill in the first category's colour, outline in the second's, at the same opacity |
| HeatmapGrid.SameCategoryGivesOne | components/Heatmap.tsx:131-133 | purchases all of one category give that single category |
| HeatmapGrid.RenderWindowCell | components/Heatmap.tsx:34-68 | a window cell is blank iff its day has no purchases, outlined iff it has two or more categories, filled in the first purchase's colour, at opacity in [0.3,1] |
| HeatmapGrid.SameCategoryDayIsPlainFill | components/Heatmap.tsx:52-64 | a day whose purchases share one category is a plain fill |
| DayDetail.WithoutId | components/DayDetailModal.tsx:180 | the filter never lengthens the list; `WithoutIdSpec`, `WithoutIdConcat` and `WithoutIdIdempotent` carry the rest |
| DayDetail.WithoutIdSpec | components/DayDetailModal.tsx:180 | after the filter the id is gone, every other purchase is kept, and an absent id leaves the list unchanged |
| DayDetail.WithoutIdConcat | components/DayDetailModal.tsx:180 | the filter distributes over concatenation, so relative order is kept |
| DayDetail.WithoutIdIdempotent | components/DayDetailModal.tsx:180 | deleting the same id twice is deleting it once |
| DayDetail.TotalSplitsById | components/DayDetailModal.tsx:180-197 | the total is the kept purchases' total plus the deleted ones' |
| DayDetail.DeletionLowersTotal | components/DayDetailModal.tsx:180-197 | deletion lowers the total by exactly the deleted amounts, never raising it when amounts are non-negative |
| DayDetail.WithIdNonNegative | components/DayDetailModal.tsx:180-197 | with non-negative amounts the deleted purchases' total is non-negative |
| DayDetail.DayDetailModal.constructor | components/DayDetailModal.tsx:134 | the local list starts as the given purchases and nothing has been reported |
| DayDetail.DayDetailModal.EntriesChanged | components/DayDetailModal.tsx:136-138 | a new input replaces the local list exactly; nothing is reported |
| DayDetail.DayDetailModal.DeleteEntry | components/DayDetailModal.tsx:178-183 | the local list becomes the filtered list and exactly that id is reported to the parent, once |
| DayDetail.DayDetailModal.TotalSpent | components/DayDetailModal.tsx:197 | the sum of the local amounts, 0 for an empty list |
| DayDetail.CategoryColor | components/DayDetailModal.tsx:289-302 | Weed, Alcohol, Tobacco and Other get their fixed colours, any other text the primary colour |
| DayDetail.CategoryColorsDistinct | components/DayDetailModal.tsx:289-298 | the four category colours are pairwise distinct |
| DayDetail.TwoDigits | components/DayDetailModal.tsx:263 | the fraction part is exactly two digits |
| DayDetail.ToFixed2 | components/DayDetailModal.tsx:263 | `toFixed(2)` over cents: sign, whole part, '.', two digits; `FormatEuro` and `FormatEuroRoundTrip` carry its properties |
| DayDetail.ReplaceFirst | components/DayDetailModal.tsx:263 | `replace('.', ',')` with a string pattern; `ReplaceFirstAt` states it |
| DayDetail.ReplaceFirstAt | components/DayDetailModal.tsx:263 | `replace('.', ',')` changes only the first '.' |
| DayDetail.FormatEuro | components/DayDetailModal.tsx:263 | the amount text has no '.', ends in ',' and two digits, and is all digits before the comma for non-negative amounts |
| DayDetail.ParseUnsignedOfParts | components/DayDetailModal.tsx:263 | reading "whole,ff" back gives whole·100+ff |
| DayDetail.UnsignedRoundTrip | components/DayDetailModal.tsx:263 | the unsigned "units,cc" text of m cents reads back to m and does not start with '-' |
| DayDetail.FormatEuroRoundTrip | components/DayDetailModal.tsx:263 | the amount text reads back to exactly the cents it came from, sign included |
| AddEntry.RequiredFilled | app/add.tsx:40 | the four required fields are non-empty, notes not among them; `Save`, `SaveFavorite` and `GuardFlow` state the guard's effect |
| AddEntry.FavoriteFailureAlert | app/add.tsx:55-60 | the capacity alert iff the message is exactly 'Max favorites reached', the generic one otherwise |
| AddEntry.LabelsFor | app/add.tsx:25-36 | category-specific captions for Alcohol, Tobacco and Other; Weed and no category get the grams captions |
| AddEntry.LabelsDistinguishCategories | app/add.tsx:25-36 | two choices show the same captions iff they are equal or are Weed and no category |
| AddEntry.AddEntryScreen.constructor | app/add.tsx:10-18 | no category, category step, empty fields, the current date, picker hidden, no storage call |
| AddEntry.AddEntryScreen.SelectCategory | app/add.tsx:20-23 | the category becomes the chosen one and the step becomes the form; nothing else changes |
| AddEntry.AddEntryScreen.ChangeCategory | app/add.tsx:115 | the step goes back to the category list and no other field changes |
| AddEntry.AddEntryScreen.EditField | app/add.tsx:147-194 | one input's text is replaced and nothing else changes |
| AddEntry.AddEntryScreen.OpenDatePicker | app/add.tsx:122 | the picker is shown and nothing else changes |
| AddEntry.AddEntryScreen.ChangeDate | app/add.tsx:86-89 | the picked date, or the previous one when none was picked; the picker stays open only on iOS |
| AddEntry.AddEntryScreen.SaveFavorite | app/add.tsx:39-62 | no storage call and the required-fields alert while a required field is empty; otherwise the template draft is recorded and the alert is success, capacity or generic |
| AddEntry.AddEntryScreen.Save | app/add.tsx:64-84 | no storage call and the required-fields alert while a required field is empty; otherwise the dated draft is recorded, then back navigation on success or the save-failed alert |
| AddEntry.SaveFlow | app/add.tsx:64-84 | choosing, typing and saving hands storage exactly the typed draft, with the chosen category and the picked or initial date, whatever the notes |
| AddEntry.GuardFlow | app/add.tsx:39-68 | with a required field empty neither button reaches storage, whatever the notes |

## Left out

- Animation (`Animated`, springs, interpolation, `FadeInView`) and the modal's slide-in geometry: timing effects with nothing to state.
- Pixel geometry of the heat map: `cellSize`, `width`, `height`, x/y offsets and touch coordinates. These are floating-point screen layout; only the grid column and row are modelled.
- `onDayPress` and the touch overlay: they forward a cell's date and purchases to a callback outside the heat map.
- The real date library. `setDate`, `getDay`, `toISOString` and `toLocaleDateString` are replaced by integer day numbers and an injective decimal key, so the drift between the local-time window and the UTC keys is not modelled. The add-entry date is an abstract time value, and the draft carries it rather than its ISO text.
- `parseFloat` and floating-point `toFixed` rounding. Amounts are integer cents, and drafts carry the typed text that would be parsed.
- The storage module (`Storage.addEntry`, `Storage.addFavorite` and its six-favourite cap). utils/storage is not part of this model. A save records the draft it hands over, and the outcome (normal return or a thrown message) is a parameter.
- `Alert`, `Modal`, `Swipeable`, the delete confirmation dialog, `router.back()` and the theme context: UI plumbing. Alerts are returned as values, and back navigation is a boolean field.
- The `CategoryColors` table used by the heat map is not defined in constants/Colors.ts, so the palette is a parameter.
- HeatmapGrid.PaletteColor: models JavaScript `||` only for a missing entry or an empty string, since colours are strings.
- Heatmap.BuildCells: `numDays` is a natural number. A negative `numDays` simply produces no cells in the source, and it is not modelled.
- DayDetail.FormatEuro: states the text before the " €" suffix; the suffix and the `type` text in the delete prompt are plain concatenation.
- The parent's handling of `onDeleteEntry`: the model records the reported ids.
- Heatmap.BuildCells: the defaults `numDays = 91` and `endDate = new Date()` are not modelled; both are plain parameters, and the clock is outside the model.
- AddEntry.AddEntryScreen.Save: `handleSave` and `handleSaveFavorite` are `async`, and each is modelled as one atomic step. A second press or a field edit while the storage call is pending is not modelled.
- Heatmap.BucketEntries: `data` is a plain object, so a date key naming an inherited property (such as "constructor") would make the `!data[dateStr]` test fail and the following `push` throw. The model's map accepts every key. Stored dates come from `toISOString`, so their keys are calendar dates and this case does not arise.
