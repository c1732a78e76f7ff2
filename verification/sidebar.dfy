/** The sidebar's data-filter block: the manufacturer checkbox and list, then the
    model-year checkbox and slider, each narrowing the view the charts are drawn from. */
module Sidebar {
  import opened Wrappers
  import opened Seqs
  import opened Rows
  import opened Views

  /** The controls the filter block reads: each filter's checkbox, the position picked in
      the manufacturer list, and the value of the year slider. */
  datatype Controls = Controls(
    filterManufacturer: bool,
    manufacturerPosition: nat,
    filterYear: bool,
    year: int)

  /** The year slider cannot be drawn over an empty view: the minimum of an empty column
      is NaN, and `int(NaN)` raises ValueError. */
  datatype FilterError = EmptyYearRange

  /** A single-choice list: the option at `position`, or None when there is no option
      there (a list with no options yields None). */
  function SelectBox(options: seq<string>, position: nat): (choice: Option<string>)
    ensures choice.Some? <==> position < |options|
    ensures choice.Some? ==> choice.value in options
  {
    if position < |options| then Some(options[position]) else None
  }

  /** The least and greatest model year of a view, or None for an empty view. */
  function YearRange(view: seq<Record>): (bounds: Option<(int, int)>)
    ensures bounds.None? <==> view == []
    ensures bounds.Some? ==> bounds.value.0 <= bounds.value.1
    ensures bounds.Some? ==> forall r :: r in view ==> bounds.value.0 <= r.modelYear <= bounds.value.1
    ensures bounds.Some? ==> exists r :: r in view && r.modelYear == bounds.value.0
    ensures bounds.Some? ==> exists r :: r in view && r.modelYear == bounds.value.1
    decreases |view|
  {
    if view == [] then None
    else
      assert view == [view[0]] + view[1..];
      var y := view[0].modelYear;
      match YearRange(view[1..])
      case None => Some((y, y))
      case Some((lo, hi)) => Some((if y < lo then y else lo, if y > hi then y else hi))
  }

  /** The view after the manufacturer block. With the box ticked, the rows whose
      manufacturer equals the list's choice; comparing with a missing choice keeps no row. */
  function ManufacturerStage(base: seq<Record>, c: Controls): (view: seq<Record>)
    ensures forall r :: r in view ==> r in base
    ensures PicksOffered(base, c) ==> view == Apply(base, Selection(base, c).(modelYear := None))
  {
    if !c.filterManufacturer then base
    else
      match SelectBox(Catalog(base), c.manufacturerPosition)
      case Some(m) => ByManufacturer(base, m)
      case None =>
        CatalogEmptyIffBaseEmpty(base);
        []
  }

  /** The list only lets the user pick one of its options, whenever it has any. */
  predicate PicksOffered(base: seq<Record>, c: Controls)
  {
    c.filterManufacturer && Catalog(base) != [] ==> c.manufacturerPosition < |Catalog(base)|
  }

  /** The slider's value lies between the bounds it was drawn with. */
  predicate SliderWithinBounds(base: seq<Record>, c: Controls)
  {
    c.filterYear ==>
      match YearRange(ManufacturerStage(base, c))
      case Some((lo, hi)) => lo <= c.year <= hi
      case None => true
  }

  /** The whole filter block: the manufacturer stage, then, with the year box ticked, the
      slider over that stage's years and the year filter. */
  function FilteredView(base: seq<Record>, c: Controls): (r: Result<seq<Record>, FilterError>)
    ensures r.Failure? <==> c.filterYear && ManufacturerStage(base, c) == []
    ensures r.Success? ==> forall x :: x in r.value ==> x in base
    ensures r.Success? && c.filterYear ==> forall x :: x in r.value ==> x.modelYear == c.year
  {
    var stage := ManufacturerStage(base, c);
    if !c.filterYear then Success(stage)
    else if YearRange(stage).None? then Failure(EmptyYearRange)
    else Success(ByYear(stage, c.year))
  }

  /** The filter state the controls select. */
  function Selection(base: seq<Record>, c: Controls): FilterState
  {
    FilterState(
      if c.filterManufacturer then SelectBox(Catalog(base), c.manufacturerPosition) else None,
      if c.filterYear then Some(c.year) else None)
  }

  /** Whenever the block produces a view, it is the base table narrowed by the selected
      filter state: exactly the matching rows, in base order. */
  lemma FilteredViewIsApply(base: seq<Record>, c: Controls)
    requires PicksOffered(base, c)
    ensures FilteredView(base, c).Success? ==> FilteredView(base, c).value == Apply(base, Selection(base, c))
  {
    if c.filterManufacturer && SelectBox(Catalog(base), c.manufacturerPosition).None? {
      CatalogEmptyIffBaseEmpty(base);
    }
  }

  /** A manufacturer picked from the catalog makes at least one row. */
  lemma CatalogPickKeepsRows(base: seq<Record>, c: Controls)
    requires c.filterManufacturer && c.manufacturerPosition < |Catalog(base)|
    ensures ManufacturerStage(base, c) != []
  {
    var m := Catalog(base)[c.manufacturerPosition];
    assert m in Catalog(base);
    var r :| r in base && r.manufacturer == m;
    assert r in ByManufacturer(base, m);
  }

  /** Over a non-empty base table the slider's bounds are defined and ordered, so the
      `int(NaN)` error cannot occur and the block produces a view. */
  lemma SliderBoundsDefined(base: seq<Record>, c: Controls)
    requires PicksOffered(base, c) && base != []
    ensures YearRange(ManufacturerStage(base, c)).Some?
    ensures YearRange(ManufacturerStage(base, c)).value.0 <= YearRange(ManufacturerStage(base, c)).value.1
    ensures FilteredView(base, c).Success?
  {
    if c.filterManufacturer {
      CatalogEmptyIffBaseEmpty(base);
      CatalogPickKeepsRows(base, c);
    }
  }

  /** The block fails with the `int(NaN)` error exactly when the year box is ticked over an
      empty base table. */
  lemma FilteredViewFailsOnlyOnEmptyBase(base: seq<Record>, c: Controls)
    requires PicksOffered(base, c)
    ensures FilteredView(base, c).Failure? <==> c.filterYear && base == []
  {
    if base != [] {
      SliderBoundsDefined(base, c);
    }
  }

  /** The selected year lies between two years that actually occur in the view the
      slider was drawn over. */
  lemma SelectedYearWithinView(base: seq<Record>, c: Controls)
    requires PicksOffered(base, c) && SliderWithinBounds(base, c)
    requires c.filterYear && base != []
    ensures exists r :: r in ManufacturerStage(base, c) && r.modelYear <= c.year
    ensures exists r :: r in ManufacturerStage(base, c) && r.modelYear >= c.year
  {
    SliderBoundsDefined(base, c);
  }
}
