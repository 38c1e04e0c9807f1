/** The filter modal of components/FilterModal.tsx: its draft, seeded by
    merging the caller's partial override onto `defaultFilters`, the edits of
    its pills, counters and sliders, and the callbacks its Reset, Set Filter
    and back buttons fire; and its controlled two-thumb `RangeSlider`, which
    emits candidate pairs and keeps only the active thumb and the track
    width. */
module FilterModalComponent {
  import opened Wrappers
  import opened FilterTypes
  import opened FilterEdits
  import opened SliderMath

  /** The modal's price slider runs over [50, 1000]. */
  const PriceBounds: Bounds := Bounds(50.0, 1000.0)
  /** The modal's size slider runs over [500, 5000]. */
  const SizeBounds: Bounds := Bounds(500.0, 5000.0)

  /** `defaultFilters` is well formed for the modal's own sliders. */
  lemma DefaultsInsideSliderBounds()
    ensures WellFormed(DefaultFilters, PriceBounds, SizeBounds)
  {
  }

  /** `Partial<FilterShape>`: each field may be left out. */
  datatype PartialFilter = PartialFilter(
    priceRange: Option<Range>,
    sizeRange: Option<Range>,
    types: Option<seq<string>>,
    bedrooms: Option<int>,
    bathrooms: Option<int>)

  /** The partial override that gives every field. */
  function Full(f: FilterShape): PartialFilter {
    PartialFilter(Some(f.priceRange), Some(f.sizeRange), Some(f.types), Some(f.bedrooms), Some(f.bathrooms))
  }

  /** `{ ...base, ...patch }`, where an absent `initialFilters` spreads
      nothing. */
  function Merge(base: FilterShape, patch: Option<PartialFilter>): FilterShape {
    match patch
    case None => base
    case Some(p) =>
      FilterShape(
        p.priceRange.GetOr(base.priceRange),
        p.sizeRange.GetOr(base.sizeRange),
        p.types.GetOr(base.types),
        p.bedrooms.GetOr(base.bedrooms),
        p.bathrooms.GetOr(base.bathrooms))
  }

  /** Each field given in the override wins; each field left out keeps the
      base value. */
  lemma MergeFieldwise(base: FilterShape, p: PartialFilter)
    ensures p.priceRange.Some? ==> Merge(base, Some(p)).priceRange == p.priceRange.value
    ensures p.priceRange.None? ==> Merge(base, Some(p)).priceRange == base.priceRange
    ensures p.sizeRange.Some? ==> Merge(base, Some(p)).sizeRange == p.sizeRange.value
    ensures p.sizeRange.None? ==> Merge(base, Some(p)).sizeRange == base.sizeRange
    ensures p.types.Some? ==> Merge(base, Some(p)).types == p.types.value
    ensures p.types.None? ==> Merge(base, Some(p)).types == base.types
    ensures p.bedrooms.Some? ==> Merge(base, Some(p)).bedrooms == p.bedrooms.value
    ensures p.bedrooms.None? ==> Merge(base, Some(p)).bedrooms == base.bedrooms
    ensures p.bathrooms.Some? ==> Merge(base, Some(p)).bathrooms == p.bathrooms.value
    ensures p.bathrooms.None? ==> Merge(base, Some(p)).bathrooms == base.bathrooms
  {
  }

  /** An override that gives every field is taken as it is, whatever the
      base; an empty one, or none at all, leaves the base; and merging the
      same override twice is merging it once. */
  lemma MergeLaws(base: FilterShape, f: FilterShape, p: PartialFilter)
    ensures Merge(base, Some(Full(f))) == f
    ensures Merge(base, Some(PartialFilter(None, None, None, None, None))) == base
    ensures Merge(base, None) == base
    ensures Merge(Merge(base, Some(p)), Some(p)) == Merge(base, Some(p))
  {
  }

  /** The seed of the modal's own test: a price range, a bedroom count and a
      type list given, the size range and bathrooms from the defaults. */
  lemma SeedExample()
    ensures Merge(DefaultFilters, Some(PartialFilter(Some((200.0, 400.0)), None, Some(["House"]), Some(2), None)))
            == FilterShape((200.0, 400.0), (1000.0, 3000.0), ["House"], 2, 0)
  {
  }

  /** A slider edit of the draft keeps a well-formed draft well formed. */
  lemma SliderEditKeepsDraftWellFormed(f: FilterShape, i: Thumb, x: real, width: real)
    requires width > 0.0
    requires WellFormed(f, PriceBounds, SizeBounds)
    ensures WellFormed(f.(priceRange := PointerMove(f.priceRange, i, PriceBounds, x, width)), PriceBounds, SizeBounds)
    ensures WellFormed(f.(sizeRange := PointerMove(f.sizeRange, i, SizeBounds, x, width)), PriceBounds, SizeBounds)
  {
    PointerMoveKeepsRangeValid(f.priceRange, i, PriceBounds, x, width);
    PointerMoveKeepsRangeValid(f.sizeRange, i, SizeBounds, x, width);
  }

  /** The modal's `RangeSlider`. It is controlled: `values` is the prop the
      parent passes in, and a move only emits a pair through
      `onValuesChange`. */
  class RangeSlider {
    const bounds: Bounds
    var values: Range
    var activeThumb: Option<Thumb>
    var containerWidth: real

    constructor (bounds: Bounds, values: Range)
      ensures this.bounds == bounds && this.values == values
      ensures activeThumb == None && containerWidth == 0.0
    {
      this.bounds := bounds;
      this.values := values;
      activeThumb := None;
      containerWidth := 0.0;
    }

    /** `handleThumbPress`: the pressed thumb becomes the active one. */
    method ThumbPress(i: Thumb)
      modifies this`activeThumb
      ensures activeThumb == Some(i)
    {
      activeThumb := Some(i);
    }

    /** `handleContainerLayout`: the measured track width. */
    method ContainerLayout(width: real)
      modifies this`containerWidth
      ensures containerWidth == width
    {
      containerWidth := width;
    }

    /** A new `values` prop from the parent. */
    method ValuesChanged(v: Range)
      modifies this`values
      ensures values == v
    {
      values := v;
    }

    /** `handleTouchMove`: with no active thumb nothing is emitted;
        otherwise the pair with the active entry moved under the pointer and
        pinned against the other thumb. A well-formed pair stays well formed
        and the other entry is unchanged. */
    method TouchMove(x: real) returns (emitted: Option<Range>)
      requires activeThumb.Some? ==> containerWidth > 0.0
      ensures activeThumb.None? ==> emitted == None
      ensures activeThumb.Some? ==>
                emitted == Some(PointerMove(values, activeThumb.value, bounds, x, containerWidth))
      ensures activeThumb.Some? && RangeValid(values, bounds) ==>
                emitted.Some? && RangeValid(emitted.value, bounds)
      ensures emitted.Some? ==> At(emitted.value, Other(activeThumb.value)) == At(values, Other(activeThumb.value))
    {
      if activeThumb == None {
        return None;
      }
      var i := activeThumb.value;
      var percentage := RealMin(RealMax(x / containerWidth, 0.0), 1.0);
      var newValue := bounds.min + percentage * (bounds.max - bounds.min);
      assert newValue == Candidate(bounds, x, containerWidth);
      var newValues := new real[2];
      newValues[0], newValues[1] := values.0, values.1;
      newValues[i] := newValue;
      if i == 0 && newValue > values.1 {
        newValues[0] := values.1;
      } else if i == 1 && newValue < values.0 {
        newValues[1] := values.0;
      }
      emitted := Some((newValues[0], newValues[1]));
      if RangeValid(values, bounds) {
        PointerMoveKeepsRangeValid(values, i, bounds, x, containerWidth);
      }
    }

    /** `handleTouchEnd`: the active thumb is cleared; the values are not
        touched. */
    method TouchEnd()
      modifies this`activeThumb
      ensures activeThumb == None
    {
      activeThumb := None;
    }
  }

  /** A callback the modal invokes on its caller. */
  datatype Callback = OnApply(filters: FilterShape) | OnReset | OnClose

  /** `FilterModal`: the draft `filters`, the `initialFilters` prop, whether
      an `onReset` callback was given, and the callbacks invoked so far, in
      order. */
  class FilterModal {
    var initialFilters: Option<PartialFilter>
    var filters: FilterShape
    const hasOnReset: bool
    var calls: seq<Callback>

    /** Mounting seeds the draft with `defaultFilters` overridden by
        `initialFilters`. */
    constructor (initialFilters: Option<PartialFilter>, hasOnReset: bool)
      ensures this.initialFilters == initialFilters && this.hasOnReset == hasOnReset
      ensures filters == Merge(DefaultFilters, initialFilters)
      ensures calls == []
    {
      this.initialFilters := initialFilters;
      this.hasOnReset := hasOnReset;
      filters := Merge(DefaultFilters, initialFilters);
      calls := [];
    }

    /** The effect on `initialFilters`: a new override re-seeds the draft the
        same way; an absent one leaves the draft alone. */
    method InitialFiltersChanged(p: Option<PartialFilter>)
      modifies this`initialFilters, this`filters
      ensures initialFilters == p
      ensures p.Some? ==> filters == Merge(DefaultFilters, p)
      ensures p.None? ==> filters == old(filters)
    {
      initialFilters := p;
      if p.Some? {
        filters := Merge(DefaultFilters, p);
      }
    }

    /** `handleReset`: the draft becomes `defaultFilters` whatever it was,
        then `onReset` is called when given. */
    method Reset()
      modifies this`filters, this`calls
      ensures filters == DefaultFilters
      ensures calls == old(calls) + (if hasOnReset then [OnReset] else [])
    {
      filters := DefaultFilters;
      if hasOnReset {
        calls := calls + [OnReset];
      }
    }

    /** `handleApply`: `onApply` gets exactly the draft, then `onClose` is
        called. */
    method Apply()
      modifies this`calls
      ensures calls == old(calls) + [OnApply(filters), OnClose]
    {
      calls := calls + [OnApply(filters)];
      calls := calls + [OnClose];
    }

    /** The back button: only `onClose`. */
    method Back()
      modifies this`calls
      ensures calls == old(calls) + [OnClose]
    {
      calls := calls + [OnClose];
    }

    /** `togglePropertyType`: only the type list changes. */
    method TogglePropertyType(t: string)
      modifies this`filters
      ensures filters == old(filters).(types := Toggle(old(filters).types, t))
      ensures old(WellFormed(filters, PriceBounds, SizeBounds)) ==> WellFormed(filters, PriceBounds, SizeBounds)
    {
      if WellFormed(filters, PriceBounds, SizeBounds) {
        EditsPreserveWellFormed(filters, PriceBounds, SizeBounds, t);
      }
      filters := filters.(types := Toggle(filters.types, t));
    }

    method IncrementBedrooms()
      modifies this`filters
      ensures filters == old(filters).(bedrooms := Increment(old(filters).bedrooms))
      ensures old(WellFormed(filters, PriceBounds, SizeBounds)) ==> WellFormed(filters, PriceBounds, SizeBounds)
    {
      filters := filters.(bedrooms := Increment(filters.bedrooms));
    }

    method DecrementBedrooms()
      modifies this`filters
      ensures filters == old(filters).(bedrooms := Decrement(old(filters).bedrooms))
      ensures old(WellFormed(filters, PriceBounds, SizeBounds)) ==> WellFormed(filters, PriceBounds, SizeBounds)
    {
      filters := filters.(bedrooms := Decrement(filters.bedrooms));
    }

    method IncrementBathrooms()
      modifies this`filters
      ensures filters == old(filters).(bathrooms := Increment(old(filters).bathrooms))
      ensures old(WellFormed(filters, PriceBounds, SizeBounds)) ==> WellFormed(filters, PriceBounds, SizeBounds)
    {
      filters := filters.(bathrooms := Increment(filters.bathrooms));
    }

    method DecrementBathrooms()
      modifies this`filters
      ensures filters == old(filters).(bathrooms := Decrement(old(filters).bathrooms))
      ensures old(WellFormed(filters, PriceBounds, SizeBounds)) ==> WellFormed(filters, PriceBounds, SizeBounds)
    {
      filters := filters.(bathrooms := Decrement(filters.bathrooms));
    }

    /** The price slider's `onValuesChange`: only the price range changes. */
    method PriceRangeChanged(v: Range)
      modifies this`filters
      ensures filters == old(filters).(priceRange := v)
      ensures old(WellFormed(filters, PriceBounds, SizeBounds)) && RangeValid(v, PriceBounds) ==>
                WellFormed(filters, PriceBounds, SizeBounds)
    {
      filters := filters.(priceRange := v);
    }

    /** The size slider's `onValuesChange`: only the size range changes. */
    method SizeRangeChanged(v: Range)
      modifies this`filters
      ensures filters == old(filters).(sizeRange := v)
      ensures old(WellFormed(filters, PriceBounds, SizeBounds)) && RangeValid(v, SizeBounds) ==>
                WellFormed(filters, PriceBounds, SizeBounds)
    {
      filters := filters.(sizeRange := v);
    }
  }
}
