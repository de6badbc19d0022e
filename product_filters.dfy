/** The filter panel (frontend/components/product-filters.tsx): category and rating check
    boxes and the price slider. Each handler records its own new value and reports it to the
    page together with the panel's current values of the other two filters. */
module ProductFilters {
  import opened Seqs
  import opened Listing

  /** A check box change: checking appends the value; unchecking removes every occurrence. */
  function Toggled<T(==, !new)>(selected: seq<T>, value: T, checked: bool): seq<T>
  {
    if checked then selected + [value] else Filter(selected, Unequal(value))
  }

  /** The condition of the unchecking `filter`. */
  function Unequal<T(==)>(value: T): T -> bool
  {
    (x: T) => x != value
  }

  /** Checking a value and then unchecking it restores a selection that did not hold it. */
  lemma ToggleRoundTrip<T(!new)>(selected: seq<T>, value: T)
    requires value !in selected
    ensures Toggled(Toggled(selected, value, true), value, false) == selected
  {
    var other := Unequal(value);
    FilterAppend(selected, [value], other);
    FilterKeepsAll(selected, other);
    assert Filter([value], other) == [];
  }

  /** What each kind of toggle does to the selection: after checking, the value is selected
      and nothing was lost; after unchecking, the value is gone and everything else is kept
      in order. */
  lemma ToggleSpec<T(!new)>(selected: seq<T>, value: T, checked: bool)
    ensures checked ==>
      value in Toggled(selected, value, checked) && Toggled(selected, value, checked)[..|selected|] == selected
    ensures !checked ==>
      && value !in Toggled(selected, value, checked)
      && IsSubseq(Toggled(selected, value, checked), selected)
      && forall x :: x in selected && x != value ==> x in Toggled(selected, value, checked)
  {
    if !checked {
      FilterIsSubseq(selected, Unequal(value));
    }
  }

  class FilterPanel {
    var selectedCategories: seq<string>
    var low: real
    var high: real
    var selectedRatings: seq<real>

    /** The panel starts with nothing selected and the whole price range `[minPrice, maxPrice]`. */
    constructor(minPrice: real, maxPrice: real)
      ensures selectedCategories == [] && selectedRatings == []
      ensures low == minPrice && high == maxPrice
    {
      selectedCategories := [];
      low := minPrice;
      high := maxPrice;
      selectedRatings := [];
    }

    /** `handleCategoryChange`. */
    method HandleCategoryChange(category: string, checked: bool) returns (emitted: Filters)
      modifies this
      ensures selectedCategories == Toggled(old(selectedCategories), category, checked)
      ensures low == old(low) && high == old(high) && selectedRatings == old(selectedRatings)
      ensures emitted == Filters(selectedCategories, low, high, selectedRatings)
    {
      selectedCategories := Toggled(selectedCategories, category, checked);
      emitted := Filters(selectedCategories, low, high, selectedRatings);
    }

    /** `handlePriceChange`: the first two slider values become the range. */
    method HandlePriceChange(value: seq<real>) returns (emitted: Filters)
      requires |value| >= 2
      modifies this
      ensures low == value[0] && high == value[1]
      ensures selectedCategories == old(selectedCategories) && selectedRatings == old(selectedRatings)
      ensures emitted == Filters(selectedCategories, low, high, selectedRatings)
    {
      low, high := value[0], value[1];
      emitted := Filters(selectedCategories, low, high, selectedRatings);
    }

    /** `handleRatingChange`. */
    method HandleRatingChange(rating: real, checked: bool) returns (emitted: Filters)
      modifies this
      ensures selectedRatings == Toggled(old(selectedRatings), rating, checked)
      ensures low == old(low) && high == old(high) && selectedCategories == old(selectedCategories)
      ensures emitted == Filters(selectedCategories, low, high, selectedRatings)
    {
      selectedRatings := Toggled(selectedRatings, rating, checked);
      emitted := Filters(selectedCategories, low, high, selectedRatings);
    }
  }
}
