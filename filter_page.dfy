/** The full-screen filter page of app/filter.tsx: a draft copied from the
    applied filters, its own reset defaults and slider bounds, Apply writing
    the draft into the applied slot and navigating to `/explore`, and its
    `RangeSlider`, which keeps a local copy of the values and re-syncs it
    from the props. */
module FilterScreen {
  import opened Wrappers
  import opened FilterTypes
  import opened FilterEdits
  import opened SliderMath

  /** The page's price slider runs over [0, 50000]. */
  const PriceBounds: Bounds := Bounds(0.0, 50000.0)
  /** The page's size slider runs over [50, 10000]. */
  const SizeBounds: Bounds := Bounds(50.0, 10000.0)

  /** The page's own reset value (the `defaultFilters` local to its
      `handleReset`). */
  const ResetFilters: FilterShape :=
    FilterShape((100.0, 10000.0), (1000.0, 3000.0), [], 0, 0)

  /** The page resets to a shape that is well formed for its sliders and
      that differs from the shared `defaultFilters` in the price range
      only. */
  lemma ResetFiltersInsideSliderBounds()
    ensures WellFormed(ResetFilters, PriceBounds, SizeBounds)
    ensures ResetFilters != DefaultFilters
    ensures ResetFilters == DefaultFilters.(priceRange := (100.0, 10000.0))
  {
  }

  /** The page's `RangeSlider`. Besides the `values` prop it keeps
      `localValues`, which every move updates and every change of the prop
      overwrites. Moves are computed from `localValues`. */
  class RangeSlider {
    const bounds: Bounds
    var values: Range
    var localValues: Range
    var activeThumb: Option<Thumb>
    var containerWidth: real

    constructor (bounds: Bounds, values: Range)
      ensures this.bounds == bounds && this.values == values && localValues == values
      ensures activeThumb == None && containerWidth == 0.0
    {
      this.bounds := bounds;
      this.values := values;
      localValues := values;
      activeThumb := None;
      containerWidth := 0.0;
    }

    /** `handleThumbPress`. */
    method ThumbPress(i: Thumb)
      modifies this`activeThumb
      ensures activeThumb == Some(i)
    {
      activeThumb := Some(i);
    }

    /** `handleContainerLayout`. */
    method ContainerLayout(width: real)
      modifies this`containerWidth
      ensures containerWidth == width
    {
      containerWidth := width;
    }

    /** The effect on `values`: a new prop re-syncs `localValues`. */
    method ValuesChanged(v: Range)
      modifies this`values, this`localValues
      ensures values == v && localValues == v
    {
      values := v;
      localValues := v;
    }

    /** `handleTouchMove`: with no active thumb nothing happens; otherwise
        the value under the pointer is pinned against the other thumb, stored
        in the active entry of `localValues`, and the stored pair is
        emitted. A well-formed pair stays well formed and the other entry is
        unchanged. */
    method TouchMove(x: real) returns (emitted: Option<Range>)
      requires activeThumb.Some? ==> containerWidth > 0.0
      modifies this`localValues
      ensures activeThumb.None? ==> emitted == None && localValues == old(localValues)
      ensures activeThumb.Some? ==>
                localValues == PointerMove(old(localValues), activeThumb.value, bounds, x, containerWidth) &&
                emitted == Some(localValues)
      ensures activeThumb.Some? && old(RangeValid(localValues, bounds)) ==> RangeValid(localValues, bounds)
      ensures activeThumb.Some? ==> At(localValues, Other(activeThumb.value)) == At(old(localValues), Other(activeThumb.value))
    {
      if activeThumb == None {
        return None;
      }
      var i := activeThumb.value;
      var percentage := RealMin(RealMax(x / containerWidth, 0.0), 1.0);
      var newValue := bounds.min + percentage * (bounds.max - bounds.min);
      assert newValue == Candidate(bounds, x, containerWidth);
      var newValues := new real[2];
      newValues[0], newValues[1] := localValues.0, localValues.1;
      if i == 0 && newValue > localValues.1 {
        newValue := localValues.1;
      }
      if i == 1 && newValue < localValues.0 {
        newValue := localValues.0;
      }
      newValues[i] := newValue;
      if RangeValid(localValues, bounds) {
        PointerMoveKeepsRangeValid(localValues, i, bounds, x, containerWidth);
      }
      localValues := (newValues[0], newValues[1]);
      emitted := Some(localValues);
    }

    /** `handleTouchEnd`. */
    method TouchEnd()
      modifies this`activeThumb
      ensures activeThumb == None
    {
      activeThumb := None;
    }
  }

  /** A navigation the page asks the router for. */
  datatype Navigation = GoBack | Replace(path: string)

  /** `FilterPage`: `applied` is the app-wide applied-filters slot the page
      reads and writes, `localFilters` the draft, `navigation` what was asked
      of the router so far. */
  class FilterPage {
    var applied: FilterShape
    var localFilters: FilterShape
    var navigation: seq<Navigation>

    /** Opening the page copies the applied filters into the draft. */
    constructor (applied: FilterShape)
      ensures this.applied == applied && localFilters == applied
      ensures navigation == []
    {
      this.applied := applied;
      localFilters := applied;
      navigation := [];
    }

    /** `handleReset`: the draft becomes the page's reset value; the applied
        slot is untouched. */
    method Reset()
      modifies this`localFilters
      ensures localFilters == ResetFilters
    {
      localFilters := ResetFilters;
    }

    /** `handleApply`: the applied slot is replaced wholesale by the draft,
        then the router replaces the screen with `/explore`. */
    method Apply()
      modifies this`applied, this`navigation
      ensures applied == localFilters
      ensures navigation == old(navigation) + [Replace("/explore")]
    {
      applied := localFilters;
      navigation := navigation + [Replace("/explore")];
    }

    /** The back button: `router.back()`, nothing is applied. */
    method Back()
      modifies this`navigation
      ensures navigation == old(navigation) + [GoBack]
    {
      navigation := navigation + [GoBack];
    }

    /** `togglePropertyType`: only the draft's type list changes. */
    method TogglePropertyType(t: string)
      modifies this`localFilters
      ensures localFilters == old(localFilters).(types := Toggle(old(localFilters).types, t))
      ensures old(WellFormed(localFilters, PriceBounds, SizeBounds)) ==> WellFormed(localFilters, PriceBounds, SizeBounds)
    {
      if WellFormed(localFilters, PriceBounds, SizeBounds) {
        EditsPreserveWellFormed(localFilters, PriceBounds, SizeBounds, t);
      }
      localFilters := localFilters.(types := Toggle(localFilters.types, t));
    }

    method IncrementBedrooms()
      modifies this`localFilters
      ensures localFilters == old(localFilters).(bedrooms := Increment(old(localFilters).bedrooms))
      ensures old(WellFormed(localFilters, PriceBounds, SizeBounds)) ==> WellFormed(localFilters, PriceBounds, SizeBounds)
    {
      localFilters := localFilters.(bedrooms := Increment(localFilters.bedrooms));
    }

    method DecrementBedrooms()
      modifies this`localFilters
      ensures localFilters == old(localFilters).(bedrooms := Decrement(old(localFilters).bedrooms))
      ensures old(WellFormed(localFilters, PriceBounds, SizeBounds)) ==> WellFormed(localFilters, PriceBounds, SizeBounds)
    {
      localFilters := localFilters.(bedrooms := Decrement(localFilters.bedrooms));
    }

    method IncrementBathrooms()
      modifies this`localFilters
      ensures localFilters == old(localFilters).(bathrooms := Increment(old(localFilters).bathrooms))
      ensures old(WellFormed(localFilters, PriceBounds, SizeBounds)) ==> WellFormed(localFilters, PriceBounds, SizeBounds)
    {
      localFilters := localFilters.(bathrooms := Increment(localFilters.bathrooms));
    }

    method DecrementBathrooms()
      modifies this`localFilters
      ensures localFilters == old(localFilters).(bathrooms := Decrement(old(localFilters).bathrooms))
      ensures old(WellFormed(localFilters, PriceBounds, SizeBounds)) ==> WellFormed(localFilters, PriceBounds, SizeBounds)
    {
      localFilters := localFilters.(bathrooms := Decrement(localFilters.bathrooms));
    }

    /** The price slider's `onValuesChange`. */
    method PriceRangeChanged(v: Range)
      modifies this`localFilters
      ensures localFilters == old(localFilters).(priceRange := v)
      ensures old(WellFormed(localFilters, PriceBounds, SizeBounds)) && RangeValid(v, PriceBounds) ==>
                WellFormed(localFilters, PriceBounds, SizeBounds)
    {
      localFilters := localFilters.(priceRange := v);
    }

    /** The size slider's `onValuesChange`. */
    method SizeRangeChanged(v: Range)
      modifies this`localFilters
      ensures localFilters == old(localFilters).(sizeRange := v)
      ensures old(WellFormed(localFilters, PriceBounds, SizeBounds)) && RangeValid(v, SizeBounds) ==>
                WellFormed(localFilters, PriceBounds, SizeBounds)
    {
      localFilters := localFilters.(sizeRange := v);
    }
  }

  /** A session on the page: reset, set the price to [200, 400], select
      House, add two bedrooms and apply. The applied slot then holds exactly
      that draft, and opening the page again seeds its draft from it. */
  method ApplyThenReopen(start: FilterShape) returns (applied: FilterShape, reseeded: FilterShape)
    ensures applied == FilterShape((200.0, 400.0), (1000.0, 3000.0), ["House"], 2, 0)
    ensures reseeded == applied
  {
    var page := new FilterPage(start);
    page.Reset();
    page.PriceRangeChanged((200.0, 400.0));
    page.TogglePropertyType("House");
    page.IncrementBedrooms();
    page.IncrementBedrooms();
    page.Apply();
    applied := page.applied;
    var again := new FilterPage(applied);
    reseeded := again.localFilters;
  }
}
