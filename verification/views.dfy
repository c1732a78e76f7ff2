/** The working view: the base table narrowed by the sidebar's equality filters, and the
    manufacturer catalog the selector offers. */
module Views {
  import opened Wrappers
  import opened Seqs
  import opened Rows

  /** Which filters are enabled, and with which value. */
  datatype FilterState = FilterState(manufacturer: Option<string>, modelYear: Option<int>)

  /** A row passes every enabled filter; a disabled filter imposes nothing. */
  predicate Matches(f: FilterState, r: Record)
  {
    && (f.manufacturer.Some? ==> r.manufacturer == f.manufacturer.value)
    && (f.modelYear.Some? ==> r.modelYear == f.modelYear.value)
  }

  function MadeBy(m: string): Record -> bool
  {
    (r: Record) => r.manufacturer == m
  }

  function FromYear(y: int): Record -> bool
  {
    (r: Record) => r.modelYear == y
  }

  function Selects(f: FilterState): Record -> bool
  {
    (r: Record) => Matches(f, r)
  }

  /** `data[data['Manufacturer'] == m]`: the rows made by `m`, all of them, in order. */
  function ByManufacturer(rows: seq<Record>, m: string): (view: seq<Record>)
    ensures IsSubsequence(view, rows)
    ensures forall r :: r in view <==> r in rows && r.manufacturer == m
    ensures forall r :: multiset(view)[r] == (if r.manufacturer == m then multiset(rows)[r] else 0)
  {
    Filter(rows, MadeBy(m))
  }

  /** `data[data['Model Year'] == y]`: the rows of model year `y`, all of them, in order. */
  function ByYear(rows: seq<Record>, y: int): (view: seq<Record>)
    ensures IsSubsequence(view, rows)
    ensures forall r :: r in view <==> r in rows && r.modelYear == y
    ensures forall r :: multiset(view)[r] == (if r.modelYear == y then multiset(rows)[r] else 0)
  {
    Filter(rows, FromYear(y))
  }

  /** The sidebar's two filters in source order: manufacturer first, then model year. */
  function Apply(base: seq<Record>, f: FilterState): (view: seq<Record>)
    ensures forall r :: r in view <==> r in base && Matches(f, r)
    ensures |view| <= |base|
  {
    var afterManufacturer :=
      if f.manufacturer.Some? then ByManufacturer(base, f.manufacturer.value) else base;
    if f.modelYear.Some? then ByYear(afterManufacturer, f.modelYear.value) else afterManufacturer
  }

  /** The two filters applied one after the other select exactly the base rows that pass
      both, in base order: the same as one pass with the conjunction. */
  lemma ApplySelectsMatchingRows(base: seq<Record>, f: FilterState)
    ensures Apply(base, f) == Filter(base, Selects(f))
  {
    match f
    case FilterState(None, None) =>
      FilterKeepsAll(base, Selects(f));
    case FilterState(Some(m), None) =>
      FilterCongruent(base, MadeBy(m), Selects(f));
    case FilterState(None, Some(y)) =>
      FilterCongruent(base, FromYear(y), Selects(f));
    case FilterState(Some(m), Some(y)) =>
      FilterFuse(base, MadeBy(m), FromYear(y), Selects(f));
  }

  /** With both filters disabled the view is the base table itself. */
  lemma NoFilterKeepsBase(base: seq<Record>)
    ensures Apply(base, FilterState(None, None)) == base
  {
    ApplySelectsMatchingRows(base, FilterState(None, None));
    FilterKeepsAll(base, Selects(FilterState(None, None)));
  }

  /** The view is an order-preserving selection of the base table that keeps every
      matching row as often as it occurs and no other row. */
  lemma ApplyIsOrderedSelection(base: seq<Record>, f: FilterState)
    ensures IsSubsequence(Apply(base, f), base)
    ensures forall r :: multiset(Apply(base, f))[r] == (if Matches(f, r) then multiset(base)[r] else 0)
  {
    ApplySelectsMatchingRows(base, f);
  }

  /** Turning a filter off never removes a row: the narrower view is a subsequence of the
      wider one, so it is never longer. */
  lemma DisablingFilterWidensView(base: seq<Record>, f: FilterState)
    ensures IsSubsequence(Apply(base, f), Apply(base, f.(manufacturer := None)))
    ensures IsSubsequence(Apply(base, f), Apply(base, f.(modelYear := None)))
    ensures |Apply(base, f)| <= |Apply(base, f.(manufacturer := None))|
    ensures |Apply(base, f)| <= |Apply(base, f.(modelYear := None))|
  {
    var noMake, noYear := f.(manufacturer := None), f.(modelYear := None);
    ApplySelectsMatchingRows(base, f);
    ApplySelectsMatchingRows(base, noMake);
    ApplySelectsMatchingRows(base, noYear);
    FilterMonotone(base, Selects(f), Selects(noMake));
    FilterMonotone(base, Selects(f), Selects(noYear));
  }

  /** The Manufacturer column. */
  function Manufacturers(base: seq<Record>): (names: seq<string>)
    ensures |names| == |base|
    ensures forall i :: 0 <= i < |base| ==> names[i] == base[i].manufacturer
  {
    seq(|base|, i requires 0 <= i < |base| => base[i].manufacturer)
  }

  lemma ManufacturersListed(base: seq<Record>)
    ensures forall m :: m in Manufacturers(base) <==> exists r :: r in base && r.manufacturer == m
  {
    var names := Manufacturers(base);
    forall m | m in names
      ensures exists r :: r in base && r.manufacturer == m
    {
      var i :| 0 <= i < |names| && names[i] == m;
      assert base[i] in base;
    }
    forall r | r in base
      ensures r.manufacturer in names
    {
      var i :| 0 <= i < |base| && base[i] == r;
      assert names[i] == r.manufacturer;
    }
  }

  /** `data['Manufacturer'].unique()` over the unfiltered base table: every manufacturer
      that occurs, once each. */
  function Catalog(base: seq<Record>): (names: seq<string>)
    ensures NoDuplicates(names)
    ensures forall m :: m in names <==> exists r :: r in base && r.manufacturer == m
  {
    ManufacturersListed(base);
    Distinct(Manufacturers(base))
  }

  /** The catalog lists manufacturers in the order in which they first occur in the base table. */
  lemma CatalogInFirstAppearanceOrder(base: seq<Record>)
    ensures InFirstAppearanceOrder(Catalog(base), Manufacturers(base))
  {
    DistinctFirstAppearance(Manufacturers(base));
  }

  /** The catalog is empty exactly when the base table is. */
  lemma CatalogEmptyIffBaseEmpty(base: seq<Record>)
    ensures Catalog(base) == [] <==> base == []
  {
    if base != [] {
      assert base[0] in base;
      assert base[0].manufacturer in Catalog(base);
    }
  }

  /** Filtering by a manufacturer the catalog does not offer yields an empty view, not an error. */
  lemma UnknownManufacturerGivesEmptyView(base: seq<Record>, m: string, y: Option<int>)
    requires m !in Catalog(base)
    ensures Apply(base, FilterState(Some(m), y)) == []
  {
  }

  /** Every manufacturer seen in any working view is already offered by the catalog, which
      is computed once from the base table. */
  lemma CatalogCoversEveryView(base: seq<Record>, f: FilterState)
    ensures forall m :: m in Catalog(Apply(base, f)) ==> m in Catalog(base)
  {
  }
}
