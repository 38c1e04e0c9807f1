/** The filter value model: the five-field `FilterShape` record and the
    `defaultFilters` constant (components/types.ts), and the predicates that
    say when a shape is well formed for a given pair of slider bounds. */
module FilterTypes {

  /** A `[number, number]` pair of a range slider: (low, high).
      Numbers are modelled as exact reals. */
  type Range = (real, real)

  /** Bedroom and bathroom counts are whole numbers. */
  datatype FilterShape = FilterShape(
    priceRange: Range,
    sizeRange: Range,
    types: seq<string>,
    bedrooms: int,
    bathrooms: int)

  /** `defaultFilters`. */
  const DefaultFilters: FilterShape :=
    FilterShape((100.0, 500.0), (1000.0, 3000.0), [], 0, 0)

  /** The absolute `min`/`max` a range slider is rendered with. */
  datatype Bounds = Bounds(min: real, max: real)

  /** Largest value a bedroom or bathroom counter may take. */
  const MaxCount: int := 10

  predicate Ordered(r: Range) {
    r.0 <= r.1
  }

  predicate Within(r: Range, b: Bounds) {
    b.min <= r.0 <= b.max && b.min <= r.1 <= b.max
  }

  /** A range a slider over `b` can hold: ordered and inside the bounds. */
  predicate RangeValid(r: Range, b: Bounds) {
    Ordered(r) && Within(r, b)
  }

  predicate NoDuplicates(s: seq<string>) {
    forall i, j :: 0 <= i < j < |s| ==> s[i] != s[j]
  }

  predicate CountInRange(n: int) {
    0 <= n <= MaxCount
  }

  /** The invariants of a filter shape shown on a screen whose price and
      size sliders run over `price` and `size`. */
  predicate WellFormed(f: FilterShape, price: Bounds, size: Bounds) {
    RangeValid(f.priceRange, price) && RangeValid(f.sizeRange, size) &&
    NoDuplicates(f.types) && CountInRange(f.bedrooms) && CountInRange(f.bathrooms)
  }

  /** The default price and size ranges are ordered, the type list is empty
      (so free of duplicates) and both counters start at 0. */
  lemma DefaultFiltersConsistent()
    ensures Ordered(DefaultFilters.priceRange) && Ordered(DefaultFilters.sizeRange)
    ensures DefaultFilters.types == [] && NoDuplicates(DefaultFilters.types)
    ensures DefaultFilters.bedrooms == 0 && DefaultFilters.bathrooms == 0
    ensures CountInRange(DefaultFilters.bedrooms) && CountInRange(DefaultFilters.bathrooms)
  {
  }
}
