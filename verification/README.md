# Auto MPG dashboard: row derivation and filter pipeline

This project models the data core of the Auto MPG Streamlit dashboard
(`AUTO_MPG_REPORT_AND_DASHBOARD.py`). The scatter, histogram and violin charts (lines
80-129) and the report tab's charts (lines 192-227) are drawn from one working view. The
data table (line 44) and the correlation heatmap (lines 47-63) come before the filter
block, so they use the unfiltered base table. This model covers how the working view is
built:

- **Row derivation** (`load_data`). Each parsed row's integer `Origin` is relabelled
  through the fixed table {1 → USA, 2 → Europe, 3 → Japan}. `Manufacturer` is derived as
  `Car Name.split()[0]`.
- **Manufacturer catalog**. This is `data['Manufacturer'].unique()` over the unfiltered base
  table. It is the only list the manufacturer selector offers.
- **Sidebar filter block**. An optional manufacturer equality filter runs first. Then an
  optional model-year equality filter runs, whose slider is bounded by the least and
  greatest model year of the view left by the manufacturer filter.

Modules, one per concern:

| file | module | contents |
|---|---|---|
| `wrappers.dfy` | `Wrappers` | `Option` (missing value / exception) and `Result` |
| `seqs.dfy` | `Seqs` | subsequence, `Filter` (boolean indexing), `Distinct` (`unique()`) |
| `text.dfy` | `Text` | Python's whitespace set, `FirstToken`, `Split` (a scan giving the same tokens as `str.split()`) |
| `rows.dfy` | `Rows` | `RawRow`, `Record`, origin table, manufacturer, `Load` |
| `views.dfy` | `Views` | `FilterState`, the two filters, `Apply`, `Catalog` |
| `sidebar.dfy` | `Sidebar` | list and slider widgets, slider bounds, the whole filter block |

Modelling choices:

- A code outside the origin table becomes NaN under `Series.map`. It is modelled as `None`.
- `split()[0]` on a name with no token raises IndexError, which aborts loading. `Load`
  returns `Failure(NoManufacturer(i))` for the first such row `i`.
- A manufacturer list with no options returns `None`. Comparing the column with `None`
  keeps no row.
- `int(NaN)` raises ValueError when the slider is drawn over an empty view. This is
  `Failure(EmptyYearRange)`.
- The list position and the slider value come from widgets that only produce offered
  values. The lemmas that need this take it as `PicksOffered` / `SliderWithinBounds`.
- The year slider is bounded by the years of the view after the manufacturer filter
  (line 75), not by those of the base table.
- The origin table (line 17) covers only the codes 1, 2 and 3; any other code gives a
  missing label.
- A car name made only of whitespace has no token, so `split()[0]` (line 19) raises
  IndexError for it just as for an empty name.

## Model

| member | source | states |
|---|---|---|
| Rows.OriginLabel | AUTO_MPG_REPORT_AND_DASHBOARD.py:17 | the label is USA, Europe or Japan exactly for code 1, 2 or 3; every other code has no label |
| Rows.OriginRoundTrip | AUTO_MPG_REPORT_AND_DASHBOARD.py:17 | code and label correspond both ways: the origin table is a bijection between {1,2,3} and the three labels |
| Rows.OriginLabelInjective | AUTO_MPG_REPORT_AND_DASHBOARD.py:17 | two codes that get a label get the same label only if they are equal |
| Text.FirstToken | AUTO_MPG_REPORT_AND_DASHBOARD.py:19 | there is no token exactly when the name is empty or all whitespace; otherwise the token is non-empty, has no whitespace, is a prefix of the name with leading whitespace removed, and is maximal |
| Text.Split | AUTO_MPG_REPORT_AND_DASHBOARD.py:19 | every piece `split()` returns is a non-empty run without whitespace |
| Text.SplitPeelsFirstToken | AUTO_MPG_REPORT_AND_DASHBOARD.py:19 | `split()` of an all-whitespace name is empty; otherwise it is the first token followed by the split of the text after it, so every piece is a maximal whitespace-free run |
| Text.SplitKeepsNonSpace | AUTO_MPG_REPORT_AND_DASHBOARD.py:19 | the pieces written back to back are exactly the name's non-whitespace characters in order |
| Text.FirstTokenIsSplitHead | AUTO_MPG_REPORT_AND_DASHBOARD.py:19 | `split()` is empty exactly when there is no first token, and otherwise its element 0 is the first token |
| Rows.ManufacturerOf | AUTO_MPG_REPORT_AND_DASHBOARD.py:19 | `split()[0]` is the first token; it fails (IndexError) exactly when the name is all whitespace, and otherwise is non-empty, whitespace-free and a prefix of the stripped name |
| Rows.DeriveRow | AUTO_MPG_REPORT_AND_DASHBOARD.py:17-19 | deriving a row fails exactly when its car name is empty or all whitespace |
| Rows.DeriveRowIsDerivation | AUTO_MPG_REPORT_AND_DASHBOARD.py:17-19 | a derived row keeps the measurements and the name, carries the origin's label, and has the name's first token as manufacturer |
| Seqs.TryMap | AUTO_MPG_REPORT_AND_DASHBOARD.py:19 | `apply` of a raising function either maps every element, giving the results in order, or stops at the first element that raises, all earlier ones having mapped |
| Rows.Load | AUTO_MPG_REPORT_AND_DASHBOARD.py:17-19 | loading succeeds exactly when every car name has a token; it then gives one row per raw row, in order, each with measurements and name unchanged, origin labelled and manufacturer the name's first token; otherwise it fails at the first row without a token |
| Seqs.Filter | AUTO_MPG_REPORT_AND_DASHBOARD.py:70 | boolean indexing returns a subsequence holding every matching element as often as it occurs and no other element |
| Seqs.FilterCharacterization | AUTO_MPG_REPORT_AND_DASHBOARD.py:70 | any order-preserving selection with those contents is the filter's result, so the contract pins the view down |
| Seqs.FilterFuse | AUTO_MPG_REPORT_AND_DASHBOARD.py:70-76 | filtering twice in a row equals one filter by the conjunction |
| Seqs.FilterMonotone | AUTO_MPG_REPORT_AND_DASHBOARD.py:70-76 | a weaker predicate keeps a superset of the rows, in the same order |
| Views.ByManufacturer | AUTO_MPG_REPORT_AND_DASHBOARD.py:67-70 | the manufacturer filter keeps, in order, every row with that manufacturer and no other row |
| Views.ByYear | AUTO_MPG_REPORT_AND_DASHBOARD.py:73-76 | the model-year filter keeps, in order, every row of that year and no other row |
| Views.Apply | AUTO_MPG_REPORT_AND_DASHBOARD.py:67-76 | a row is in the view exactly when it is in the base table and passes every enabled filter; the view is never longer than the base |
| Views.ApplySelectsMatchingRows | AUTO_MPG_REPORT_AND_DASHBOARD.py:67-76 | manufacturer filter then year filter equals a single pass over the base table keeping the rows that pass both |
| Views.ApplyIsOrderedSelection | AUTO_MPG_REPORT_AND_DASHBOARD.py:67-76 | the view is a subsequence of the base table holding each matching row as often as the base does and no other row |
| Views.NoFilterKeepsBase | AUTO_MPG_REPORT_AND_DASHBOARD.py:67-76 | with both filters disabled the view is the base table, same rows in the same order |
| Views.DisablingFilterWidensView | AUTO_MPG_REPORT_AND_DASHBOARD.py:67-76 | disabling either filter gives a view of which the old one is a subsequence, so it is never shorter |
| Seqs.Distinct | AUTO_MPG_REPORT_AND_DASHBOARD.py:24 | `unique()` holds exactly the values of the column, each once |
| Seqs.DistinctFirstAppearance | AUTO_MPG_REPORT_AND_DASHBOARD.py:24 | `unique()` lists values in the order of their first occurrence |
| Views.Catalog | AUTO_MPG_REPORT_AND_DASHBOARD.py:24 | the catalog has no duplicates and lists exactly the manufacturers of base rows |
| Views.CatalogInFirstAppearanceOrder | AUTO_MPG_REPORT_AND_DASHBOARD.py:24 | the catalog is ordered by first occurrence in the base table's Manufacturer column |
| Views.CatalogEmptyIffBaseEmpty | AUTO_MPG_REPORT_AND_DASHBOARD.py:24 | the catalog is empty exactly when the base table is |
| Views.UnknownManufacturerGivesEmptyView | AUTO_MPG_REPORT_AND_DASHBOARD.py:69-70 | a manufacturer outside the catalog yields an empty view, not an error |
| Views.CatalogCoversEveryView | AUTO_MPG_REPORT_AND_DASHBOARD.py:24 | every manufacturer of any filtered view is already in the base catalog |
| Sidebar.SelectBox | AUTO_MPG_REPORT_AND_DASHBOARD.py:69 | the list yields a choice exactly when the picked position is one of its options, and the choice is one of the options |
| Sidebar.ManufacturerStage | AUTO_MPG_REPORT_AND_DASHBOARD.py:67-70 | the view after the manufacturer block holds only base rows, and with a pick from the list it is the base narrowed by the manufacturer filter alone |
| Sidebar.YearRange | AUTO_MPG_REPORT_AND_DASHBOARD.py:75 | the slider bounds exist exactly for a non-empty view; then min ≤ max, every row's year lies between them, and both are years of some row |
| Sidebar.FilteredView | AUTO_MPG_REPORT_AND_DASHBOARD.py:67-76 | the block fails with the `int(NaN)` error exactly when the year box is ticked over an empty manufacturer stage; otherwise the view holds only base rows, all of the selected year when that filter is on |
| Sidebar.FilteredViewIsApply | AUTO_MPG_REPORT_AND_DASHBOARD.py:67-76 | with a pick from the list, the block's view is the base narrowed by the selected filter state |
| Sidebar.CatalogPickKeepsRows | AUTO_MPG_REPORT_AND_DASHBOARD.py:24-70 | a manufacturer picked from the catalog leaves a non-empty view |
| Sidebar.SliderBoundsDefined | AUTO_MPG_REPORT_AND_DASHBOARD.py:69-75 | over a non-empty base with a pick from the list, the slider's min and max are defined with min ≤ max, so the `int(NaN)` error cannot occur and the block yields a view |
| Sidebar.FilteredViewFailsOnlyOnEmptyBase | AUTO_MPG_REPORT_AND_DASHBOARD.py:67-76 | with a pick from the list, the block fails with the `int(NaN)` error exactly when the year box is ticked and the base table is empty |
| Sidebar.SelectedYearWithinView | AUTO_MPG_REPORT_AND_DASHBOARD.py:75 | the selected year lies between two years that occur in the view the slider was drawn over |

## Left out

- Fetching the file with `pd.read_csv` (lines 14-16): network I/O and parsing. The model
  starts from parsed `RawRow`s, so `Load` covers only the derivation steps.
- The `@st.cache_resource` memoisation (lines 12, 22): a library cache. The base table is
  an ordinary value passed to every function.
- The numeric column catalog (line 23): it depends on pandas dtype inference. A `?` in
  Horsepower, for one, makes that column textual.
- Horsepower's `?` sentinel: the model carries every numeric column as a real.
- Correlation matrices, histograms, violins, box and scatter plots, trendlines (lines 50,
  80-313): floating-point statistics and rendering.
- All other widgets, tabs, sidebar text and the report prose (lines 26-65, 78-313): UI
  and text.
- Sidebar.FilteredView, Sidebar.SliderBoundsDefined, Sidebar.FilteredViewFailsOnlyOnEmptyBase:
  a stage whose rows all share one model year (a manufacturer with a single car, for one)
  draws the slider at line 75 with its minimum equal to its maximum, which the widget
  library may reject. The model gives a view there. Its failure clauses model only the
  `int(NaN)` ValueError of an empty stage, not the widget library's own checks.
