# Filter editing core of a real-estate browsing app, modelled in Dafny

The app lets a user narrow property listings by price, building size,
property type, bedrooms and bathrooms. This project models the client-side
logic behind that:

- **Filter value model** (`FilterTypes`, `types.dfy`): the five-field
  `FilterShape` record, the shared `defaultFilters`, and a `WellFormed`
  predicate. A shape is well formed when both ranges are ordered and inside
  the slider bounds, the type list has no duplicates, and both counters are
  in [0, 10].
- **Pill and counter edits** (`FilterEdits`, `filter_edits.dfy`): the
  property-type toggle and the saturating counters. Both screens write the
  same code, so it is modelled once.
- **Range slider arithmetic** (`SliderMath`, `slider_math.dfy`): the clamped
  pointer fraction, the value under the pointer, the pinning rule that keeps
  the two thumbs from crossing, and the rendered thumb position.
- **Filter modal** (`FilterModalComponent`, `filter_modal.dfy`): a class
  `FilterModal` holds the draft and logs the callbacks it fires. The draft
  is seeded by merging a partial override onto the defaults. A class
  `RangeSlider` models the controlled slider, which keeps only its active
  thumb and its track width.
- **Filter page** (`FilterScreen`, `filter_page.dfy`): a class `FilterPage`
  holds the applied-filters slot, a draft copied from it, and the
  navigation requests. Its `RangeSlider` also keeps `localValues` and
  re-syncs them from the props.
- **Geolocation parsing** (`MapView`, `map_view.dfy`): a "lat, lng" string
  is split on commas. The first two fields are trimmed and parsed, and the
  result is checked against the latitude and longitude ranges.
- `Wrappers` (`wrappers.dfy`): the `Option` type.

Numbers are exact `real`s (bedroom and bathroom counts are `int`s).
`parseFloat` is a parameter of type `string -> Option<real>`. `None` stands
for `NaN`, and also for the infinities, which the range checks reject anyway.
The callbacks (`onApply`, `onReset`, `onClose`) and the router become
append-only logs on the objects. The global applied-filters slot is a field
of `FilterPage`.

The code behaves as follows, and the model follows it:
- The property-type list is ordered. A new type is appended at the end, and
  the other types keep their order.
- The modal's back button only calls `onClose`. The modal does not discard
  its own draft; its caller hides it.
- The page resets the price range to [100, 10000], not to the shared
  default [100, 500].

## Model

| member | source | states |
|---|---|---|
| FilterTypes.DefaultFiltersConsistent | components/types.ts:9-15 | both default ranges are ordered, the default type list is empty and so free of duplicates, and both counters are 0, inside [0, 10] |
| FilterEdits.Without | components/FilterModal.tsx:262 | filtering drops every occurrence of the label: the result's multiset is the input's with that label's count set to 0, and every other label is kept (same code at app/filter.tsx:282) |
| FilterEdits.WithoutAppend | components/FilterModal.tsx:262 | filtering distributes over concatenation, so the remaining labels keep their relative order |
| FilterEdits.WithoutAbsent | components/FilterModal.tsx:262 | filtering out a label that is not present returns the list unchanged |
| FilterEdits.WithoutKeepsNoDuplicates | components/FilterModal.tsx:262 | filtering keeps a duplicate-free list duplicate-free |
| FilterEdits.Toggle | components/FilterModal.tsx:258-265 | after a toggle the label is present exactly when it was absent before; other labels keep their membership; a present label loses every occurrence and the result is `Without` of the list, so the remaining labels keep their order (`WithoutAppend`); an absent one is appended at the end (same code at app/filter.tsx:278-285) |
| FilterEdits.ToggleKeepsNoDuplicates | components/FilterModal.tsx:258-265 | a duplicate-free type list stays duplicate-free after a toggle |
| FilterEdits.ToggleTwiceAbsent | components/FilterModal.tsx:258-265 | toggling an absent type twice gives back exactly the original list |
| FilterEdits.ToggleTwicePresent | components/FilterModal.tsx:258-265 | toggling a present type twice restores the set of selected types, with that type moved to the end |
| FilterEdits.Increment | components/FilterModal.tsx:346-348 | the increment never exceeds 10, keeps a count in [0, 10] inside it, adds one below 10, and is a no-op exactly at 10 (same code at app/filter.tsx:343-348) |
| FilterEdits.Decrement | components/FilterModal.tsx:349-351 | the decrement never goes below 0, keeps a count in [0, 10] inside it, subtracts one above 0, and is a no-op exactly at 0 (same code at app/filter.tsx:349-354) |
| FilterEdits.DisabledCounterIsNoOp | components/FilterModal.tsx:71-83 | for an in-range count, when a button's `disabled` condition holds, its handler leaves the count unchanged |
| FilterEdits.CounterStaysInRange | components/FilterModal.tsx:346-361 | any sequence of increments and decrements starting in [0, 10] ends in [0, 10] |
| FilterEdits.EditsPreserveWellFormed | components/FilterModal.tsx:258-361 | the toggle and the four counter edits keep a well-formed shape well formed, each changing only its own field |
| SliderMath.Fraction | components/FilterModal.tsx:141 | the pointer fraction lies in [0, 1], equals x/width on the track, and is 0 left of it and 1 right of it |
| SliderMath.Candidate | components/FilterModal.tsx:141-142 | with min ≤ max the value under the pointer lies in [min, max], and it is min at or left of the track start and max at or right of its end |
| SliderMath.Interpolate | components/FilterModal.tsx:142 | `min + p·(max − min)` for a fraction p in [0, 1] lies in [min, max] when min ≤ max, is min for p = 0 and max for p = 1 |
| SliderMath.MoveThumb | components/FilterModal.tsx:144-152 | the inactive entry is copied unchanged; the low thumb never passes the high value and takes the candidate exactly when it does not exceed it, and is otherwise set to the high value; symmetrically for the high thumb (same rule at app/filter.tsx:171-178) |
| SliderMath.MoveKeepsRangeValid | components/FilterModal.tsx:144-152 | moving a thumb of an ordered in-bounds pair to an in-bounds value keeps the pair ordered and in bounds |
| SliderMath.PointerMoveKeepsRangeValid | components/FilterModal.tsx:137-155 | a touch move keeps an ordered in-bounds pair ordered and in bounds, and leaves the inactive entry unchanged |
| SliderMath.DragKeepsRangeValid | components/FilterModal.tsx:137-155 | a sequence of touch moves keeps the pair ordered and inside [min, max] after every step |
| SliderMath.PositionRoundTrip | components/FilterModal.tsx:185 | when no pinning happens, the moved thumb's rendered position (v−min)/(max−min)·100 equals the clamped pointer fraction times 100 |
| SliderMath.PositionsOrdered | components/FilterModal.tsx:177-178 | an ordered in-bounds pair is drawn with both thumbs within [0, 100] percent and the low thumb left of the high one |
| FilterModalComponent.DefaultsInsideSliderBounds | components/FilterModal.tsx:316-374 | `defaultFilters` is well formed for the modal's sliders, price [50, 1000] and size [500, 5000] |
| FilterModalComponent.MergeFieldwise | components/FilterModal.tsx:237 | in `{...defaultFilters, ...initialFilters}` each field given in the override wins and each field left out keeps its default |
| FilterModalComponent.MergeLaws | components/FilterModal.tsx:236-246 | a complete override is taken as it is; an empty or absent one leaves the defaults; merging the same override twice equals merging it once |
| FilterModalComponent.SeedExample | components/FilterModal.test.tsx:74-87 | the test's override of price, bedrooms and types seeds the draft with those values, the default size range and 0 bathrooms |
| FilterModalComponent.SliderEditKeepsDraftWellFormed | components/FilterModal.tsx:316-374 | storing a slider's emitted pair into the draft keeps a well-formed draft well formed |
| FilterModalComponent.RangeSlider.constructor | components/FilterModal.tsx:126-127 | a new slider has no active thumb and a track width of 0 |
| FilterModalComponent.RangeSlider.ThumbPress | components/FilterModal.tsx:129-131 | pressing a thumb makes it the active one |
| FilterModalComponent.RangeSlider.ContainerLayout | components/FilterModal.tsx:133-135 | the layout event records the track width |
| FilterModalComponent.RangeSlider.ValuesChanged | components/FilterModal.tsx:114 | the slider shows the `values` prop its parent passes |
| FilterModalComponent.RangeSlider.TouchMove | components/FilterModal.tsx:137-155 | with no active thumb nothing is emitted; otherwise the emitted pair is the pinned pointer move; an ordered in-bounds pair stays so; the inactive entry is unchanged |
| FilterModalComponent.RangeSlider.TouchEnd | components/FilterModal.tsx:157-159 | release clears the active thumb and changes nothing else |
| FilterModalComponent.FilterModal.constructor | components/FilterModal.tsx:236-240 | the draft is `defaultFilters` overridden by `initialFilters`, and no callback has run |
| FilterModalComponent.FilterModal.InitialFiltersChanged | components/FilterModal.tsx:242-246 | a new override re-seeds the draft by the same merge; an absent one leaves the draft |
| FilterModalComponent.FilterModal.Reset | components/FilterModal.tsx:248-251 | the draft becomes `defaultFilters` whatever it was, and `onReset` is called exactly when it was given |
| FilterModalComponent.FilterModal.Apply | components/FilterModal.tsx:253-256 | `onApply` receives exactly the current draft, then `onClose` is called, in that order; the draft is unchanged |
| FilterModalComponent.FilterModal.Back | components/FilterModal.tsx:302 | the back button calls only `onClose` and leaves the draft |
| FilterModalComponent.FilterModal.TogglePropertyType | components/FilterModal.tsx:258-265 | only the draft's type list changes, by the toggle, and a well-formed draft stays well formed |
| FilterModalComponent.FilterModal.IncrementBedrooms | components/FilterModal.tsx:346-348 | only the bedroom count changes, saturating at 10, and well-formedness is kept |
| FilterModalComponent.FilterModal.DecrementBedrooms | components/FilterModal.tsx:349-351 | only the bedroom count changes, saturating at 0, and well-formedness is kept |
| FilterModalComponent.FilterModal.IncrementBathrooms | components/FilterModal.tsx:356-358 | only the bathroom count changes, saturating at 10, and well-formedness is kept |
| FilterModalComponent.FilterModal.DecrementBathrooms | components/FilterModal.tsx:359-361 | only the bathroom count changes, saturating at 0, and well-formedness is kept |
| FilterModalComponent.FilterModal.PriceRangeChanged | components/FilterModal.tsx:320 | only the price range changes, to the emitted pair; an in-bounds ordered pair keeps the draft well formed |
| FilterModalComponent.FilterModal.SizeRangeChanged | components/FilterModal.tsx:372 | only the size range changes, to the emitted pair; an in-bounds ordered pair keeps the draft well formed |
| FilterScreen.ResetFiltersInsideSliderBounds | app/filter.tsx:257-266 | the page's reset value is well formed for its sliders, price [0, 50000] and size [50, 10000]; it differs from `defaultFilters` only in its price range [100, 10000] |
| FilterScreen.RangeSlider.constructor | app/filter.tsx:147-157 | `localValues` starts as the `values` prop; no thumb is active and the width is 0 |
| FilterScreen.RangeSlider.ThumbPress | app/filter.tsx:150-152 | pressing a thumb makes it the active one |
| FilterScreen.RangeSlider.ContainerLayout | app/filter.tsx:154-156 | the layout event records the track width |
| FilterScreen.RangeSlider.ValuesChanged | app/filter.tsx:159-162 | a new `values` prop re-syncs `localValues` to it |
| FilterScreen.RangeSlider.TouchMove | app/filter.tsx:164-181 | with no active thumb nothing changes and nothing is emitted; otherwise `localValues` becomes the pinned pointer move of the old `localValues`, and the emitted pair equals the stored one; an ordered in-bounds pair stays so; the inactive entry is unchanged |
| FilterScreen.RangeSlider.TouchEnd | app/filter.tsx:183-185 | release clears the active thumb and changes nothing else |
| FilterScreen.FilterPage.constructor | app/filter.tsx:254-255 | the page draft is an exact copy of the applied filters |
| FilterScreen.FilterPage.Reset | app/filter.tsx:257-266 | the draft becomes the page's own reset value; the applied slot is untouched |
| FilterScreen.FilterPage.Apply | app/filter.tsx:268-276 | the applied slot is replaced wholesale by the draft, then `/explore` replaces the screen |
| FilterScreen.FilterPage.Back | app/filter.tsx:15-17 | the back button asks for `router.back()` and leaves the applied slot and the draft untouched |
| FilterScreen.FilterPage.TogglePropertyType | app/filter.tsx:278-285 | only the draft's type list changes, by the toggle, and a well-formed draft stays well formed |
| FilterScreen.FilterPage.IncrementBedrooms | app/filter.tsx:343-348 | only the bedroom count changes, saturating at 10, and well-formedness is kept |
| FilterScreen.FilterPage.DecrementBedrooms | app/filter.tsx:349-354 | only the bedroom count changes, saturating at 0, and well-formedness is kept |
| FilterScreen.FilterPage.IncrementBathrooms | app/filter.tsx:359-364 | only the bathroom count changes, saturating at 10, and well-formedness is kept |
| FilterScreen.FilterPage.DecrementBathrooms | app/filter.tsx:365-370 | only the bathroom count changes, saturating at 0, and well-formedness is kept |
| FilterScreen.FilterPage.PriceRangeChanged | app/filter.tsx:315-317 | only the price range changes, to the emitted pair; an in-bounds ordered pair keeps the draft well formed |
| FilterScreen.FilterPage.SizeRangeChanged | app/filter.tsx:381-383 | only the size range changes, to the emitted pair; an in-bounds ordered pair keeps the draft well formed |
| FilterScreen.ApplyThenReopen | app/filter.tsx:255-276 | after a reset and edits followed by Apply, the slot holds exactly price [200, 400], size [1000, 3000], types House, 2 bedrooms, 0 bathrooms, and reopening the page seeds the draft from it |
| MapView.TrimStart | components/MapView.tsx:17 | the result is a suffix of the input, everything cut off is whitespace, and it does not start with whitespace |
| MapView.TrimEnd | components/MapView.tsx:17 | the result is a prefix of the input, everything cut off is whitespace, and it does not end with whitespace |
| MapView.Trim | components/MapView.tsx:17 | a trimmed field neither starts nor ends with whitespace |
| MapView.TrimPadded | components/MapView.tsx:17 | trimming whitespace padding off a core that has none at its ends gives back exactly the core |
| MapView.TrimIdempotent | components/MapView.tsx:17 | trimming twice is trimming once |
| MapView.Split | components/MapView.tsx:17 | splitting on `,` gives at least one field, and no field contains a comma |
| MapView.JoinSplit | components/MapView.tsx:17 | joining the fields with commas gives back the original string |
| MapView.SplitJoin | components/MapView.tsx:17 | splitting comma-joined comma-free fields gives back those fields |
| MapView.Validate | components/MapView.tsx:24-28 | the result is present exactly when both numbers parsed, latitude is in [-90, 90] and longitude in [-180, 180] (bounds inclusive), and then it is exactly that pair |
| MapView.ParseGeolocation | components/MapView.tsx:12-33 | an empty (falsy) string gives `null`, and any non-null result lies within the latitude and longitude ranges |
| MapView.FirstTwoFields | components/MapView.tsx:17-21 | for a string made of two comma-free fields the result is the validation of their trimmed parses, and any further fields are ignored |
| MapView.MissingSecondField | components/MapView.tsx:17-24 | a string without a comma has no longitude field and gives `null` |
| MapView.TwoFieldOutcome | components/MapView.tsx:20-28 | with two fields: a field that fails to parse gives `null`, an out-of-range latitude or longitude gives `null`, and otherwise the result is exactly the parsed pair |

## Left out

- Rendering: JSX, styling, the `visible` prop and `Modal` dismissal, animations and safe-area insets are presentation only.
- The histogram draws random bar heights from `Math.random`; it is decorative and affects no state.
- Label formatting (`formatValue`, `toFixed`) converts floats to strings, which the exact-real model does not represent.
- IEEE floating point: slider and geolocation arithmetic is exact `real` arithmetic, so rounding is not modelled.
- FilterModalComponent.RangeSlider.TouchMove: requires a positive track width while a thumb is active. In the source, a move before the first layout divides by the initial width 0 and emits `NaN` or an infinite value; the model does not capture that.
- FilterScreen.RangeSlider.TouchMove: the same positive-width precondition as the modal slider, for the same reason.
- MapView.ParseGeolocation: `parseFloat` is an abstract parameter, so its prefix parsing (for example "12abc") is not modelled. The whitespace set of `trim` is written out by hand, and the `try`/`catch` around the body is dropped because nothing in it can throw for a string.
- A `Partial<FilterShape>` property that is present but set to `undefined` overrides the default in JavaScript; the model has only given or absent fields (`Option`).
- React scheduling: effects, batched state updates, and the counters' use of the render-time draft where the toggle uses a functional update behave the same in a sequential model.
- lib/global-provider.tsx does not supply the `filters`/`setFilters` fields that app/filter.tsx reads. The applied slot is therefore a field of `FilterPage`.
- Listing-screen query construction and client-side re-filtering are not in the modelled files.
- lib/appwrite.ts is network and identity-service code; components/Search.tsx is debounce timing and navigation. The other screens (app/_layout.tsx, app/signIn.tsx and the test/demo screens) are presentation only. None of these is part of this model.
- `console.log` calls are output only.
