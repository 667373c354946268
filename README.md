# CPI dashboard selection engine in Dafny

This project models the selection and ranking logic behind the two Dash
dashboards over the yearly Corruption Perceptions Index table:

- `app.py`, the single-page dashboard with a year slider, multi-country
  selection and a ranking table;
- `appnav.py`, the two-page dashboard (dashboard and ranking page) fixed
  on the latest year.

The table is a sequence of rows `(country, iso3, region, score, year)`. A
missing region or score (NaN in the CSV) is `None`. Each pandas step
becomes a function on sequences:

- a boolean mask becomes `Table.Filter`, which keeps row order;
- `sort_values` becomes `Sorting.SortBy`, with missing scores last in both
  directions;
- `head(n)` becomes `Sorting.Head`;
- `rank(method="min", ascending=False)` becomes `Ranking.MinRank`;
- the 1-based position after a sort becomes `Ranking.IndexOfCountry` and
  `Ranking.WithinTieBounds`;
- `groupby("Year")` with a mean becomes `Trend.YearlyMeans`;
- `idxmin`/`idxmax` become `Trend.ArgExtreme`;
- `sorted(unique())` becomes `Distinct.SortedUniqueStrings` and
  `Distinct.SortedUniqueInts`;
- `nunique()` becomes `Catalog.CountryCount`.

The callbacks of `app.py` are expression pipelines. Each becomes a function
in module `App`. In `appnav.py`, `kpi_panel_row` builds its list with
`append` and a loop over `KPI_FIELDS`, so it is a method that uses
`AppendFieldBoxes`. `update_ranking_page` reassigns its frame step by step,
so it is a method too. Both dashboard callbacks of `appnav.py` are methods
(`UpdateNavDashboard`, `UpdateRankingPage`). Each is proved against the
specification functions around it.

Files and modules:

- `table.dfy` (`Table`): rows, region display names, masks and counting
  lemmas.
- `sorting.dfy` (`Sorting`): the score sort and `head`.
- `distinct.dfy` (`Distinct`): Python string order, sorted distinct values.
- `ranking.dfy` (`Ranking`): the minimum-tie rank and the position rank of
  the KPI panels.
- `trend.dfy` (`Trend`): yearly means and min/max markers.
- `catalog.dfy` (`Catalog`): dropdown choices, country lists, distinct
  country count, latest year.
- `colorscale.dfy` (`ColorScale`): the line-colour index.
- `app.dfy` (`App`) and `appnav.dfy` (`AppNav`): the callbacks of the two
  dashboards.

Two kinds of rank appear, and the model keeps them apart.

- **The ranking table** (`app.py`) uses the minimum-tie rank.
  - Tied scores share the best rank of their group.
  - The next score jumps by the group size.
  - `MinRank` is defined through the sort. It is proved equal to
    1 + the number of strictly higher scores.
- **The KPI panels** (both files) show a position after a descending
  `sort_values`.
  - pandas' default quicksort leaves tied rows in no fixed order, so
    `PositionRankBounds` is proved for every sorted permutation.
  - The rank lies between 1 + #(higher scores) and #(scores at least as
    high).
  - A row without a score lies after every scored row.
  - `PositionWithinTieGroup` relates this rank to `MinRank`: the two are
    equal for an untied score.

What the code does that a reader might not expect:

- **The KPI rank does not share ties.** It is a position after the sort,
  so tied countries get different ranks. The world and region totals count
  every row of the year, scored or not. A country without a score is
  placed after all scored rows.
- **The ranking table needs every score.** `astype(int)` fails on a NaN
  rank, so `RankingTable` requires every row of its context to have a
  score.
- **Unknown region codes show "None" in `app.py`.** The aggregate view
  name uses `region_names.get(code)` with no default. `App.RegionTitle`
  models this as written.

## Model

| member | source | states |
|---|---|---|
| `Table.Filter` | app.py:458 | A mask keeps exactly the rows that satisfy it and never adds rows. |
| `Table.TargetRow` | app.py:87-91 | `row.iloc[0]` of the (country, year) mask is a row of the table with that country and year. |
| `Table.FilterPerm` | app.py:95-97 | What a mask keeps, and how many, does not depend on row order, so any sort of the rows gives the same counts. |
| `Table.FilterFilter` | app.py:519-522 | Masking the year's rows a second time equals one combined mask over the table. |
| `Sorting.SortBy` | app.py:95-97 | `sort_values` returns a permutation of its input in score order. Missing scores come last. |
| `Sorting.Head` | app.py:480 | `head(n)` is the prefix of length min(n, size). |
| `Sorting.HeadOfSorted` | app.py:478-487 | The first n rows of a sorted frame are sorted, come from it, and no row left out beats a kept row. |
| `Sorting.FilterSorted` | app.py:107 | Masking a sorted frame by region leaves it sorted. |
| `Distinct.SortedUniqueStrings` | app.py:12 | `sorted(unique())` of a column is strictly ascending in Python string order and holds exactly the column's values. |
| `Distinct.SortedUniqueInts` | app.py:613-614 | The group keys of `groupby("Year")` are strictly ascending and are exactly the years present. |
| `Distinct.StrLessTrans` | app.py:12 | Python's string order is transitive. |
| `Ranking.MinRank` | app.py:471-475 | The minimum-tie rank of score v is 1 + the number of rows scoring strictly more, whatever order the sort leaves ties in. |
| `Ranking.MinRankMonotone` | app.py:471-475 | A strictly higher score gets a strictly smaller rank. |
| `Ranking.MinRankJump` | app.py:471-475 | The next distinct score below a tie group is ranked exactly the group's size further down. |
| `Ranking.MinRankOfBest` | app.py:471-475 | The best score is ranked 1, however many rows share it. |
| `Ranking.TieExample` | app.py:471-475 | Scores 90, 90, 88 get ranks 1, 1, 3. |
| `Ranking.IndexOfCountry` | app.py:97-103 | `.loc[country, "index"]` is the first position holding that country. |
| `Ranking.PositionRankBounds` | app.py:95-105 | In any descending sort, a country that occurs once sits after every strictly better row and within its tie group. An unscored one sits after all scored rows. |
| `Ranking.SortedPositionBounds` | app.py:95-104 | In a descending sort the row at position k is after every strictly better row and within its tie group; an unscored row is after all scored rows. |
| `Ranking.PositionWithinTieGroup` | app.py:95-105 | A position rank lies in [MinRank, MinRank + tie size). It equals MinRank when the score is untied. |
| `Ranking.RegionalBounds` | app.py:107-115 | The region's rows, taken from the sorted world, are a sorted permutation of the region's rows. The target's position there is within its regional tie bounds. |
| `Ranking.RankFigures` | app.py:95-115 | World and region rank lie within their tie bounds. `world_total` is the number of rows of the year. `region_total` is that of the region. 1 ≤ rank ≤ total, and region_total ≤ world_total. |
| `Trend.YearlyMeans` | app.py:613-626 | One group per distinct year in scope, in ascending year order. Each keeps the sum and the count of that year's present scores. |
| `Trend.MissingScoreIgnored` | app.py:613-626 | Adding a row without a score, for a year already present, leaves every yearly mean unchanged. Absent scores are in neither numerator nor denominator. |
| `Trend.YearlyMeansHaveValue` | app.py:613-626 | A year with a present score has a mean. |
| `Trend.ArgExtreme` | app.py:582-583 | `idxmin`/`idxmax` give the first position whose present value is ≤ (≥) every present value. |
| `Trend.Markers` | app.py:581-583 | An empty series gets no marker. Otherwise the red marker is the first lowest and the green marker the first highest point of the series, as `idxmin`/`idxmax` pick them. |
| `Trend.RowPointsPlottable` | app.py:580-583 | A row series with a score has the present value the markers need. |
| `Trend.MeanPointsPlottable` | app.py:643-645 | A scope with a score gives a mean series with a present value. |
| `Catalog.AllCountries` | app.py:12 | `all_countries` is strictly sorted and lists exactly the countries that have a row. |
| `Catalog.RegionCountries` | app.py:430-434 | The region's countries are strictly sorted and are exactly those with a row, in any year, in that region. |
| `Catalog.CountryCount` | app.py:69 | `nunique()` is the size of the set of countries and never exceeds the number of rows. |
| `Catalog.CountryCountEmpty` | app.py:69 | The count is 0 exactly for an empty view. |
| `Catalog.CountryCountDistinct` | app.py:69 | Rows of pairwise different countries are counted one by one. |
| `Catalog.LatestYear` | appnav.py:12 | `latest_year` is a year of the table, and no row is later. |
| `ColorScale.LineColorIndex` | app.py:199-202 | The index is valid for any non-empty scale. It is ⌊0.7·len⌋ past four colours and ⌊len/2⌋ otherwise. |
| `App.UpdateCountryOptions` | app.py:424-436 | Options are sorted, labelled by value, and are all countries, or the region's countries. With "all" the selection is returned unchanged. Otherwise it becomes the selected countries of the region, in their order, each of them offered. |
| `App.RankingContext` | app.py:458-468 | The context holds exactly the year's rows, of the selected region unless it is "all", in table order and with their multiplicity, so every count over it counts each row once. |
| `App.WithRanks` | app.py:470-475 | Every row carries 1 + the number of context rows scoring strictly more. |
| `App.Shown` | app.py:477-493 | "Top 10" holds min(10, size) rows in descending order and "Bottom 10" as many in ascending order. Any other mode holds a descending permutation of the whole context. No row left out beats a shown one. |
| `App.RankingTable` | app.py:470-497 | The table lists `Shown`'s rows. Each rank is counted in the whole context, before the cut. |
| `App.RankingTableTies` | app.py:471-475 | In the table, equal scores share a rank and a higher score has a smaller rank. |
| `App.TopRankIsOne` | app.py:477-481 | The first "Top 10" line is ranked 1. |
| `App.BottomRankFromContext` | app.py:484-487 | The first "Bottom 10" line keeps its context rank: 1 + size − the size of its tie group, not 1. |
| `App.MapRows` | app.py:519-619 | The map shows, from the year's rows: the selected countries when more than one is selected (region ignored); else the one selected country; else the region's rows, or all. |
| `App.ComparisonMarkers` | app.py:536-541 | One marker pair per selected country that has rows, in selection order, and only for those. Each pair is the first lowest and first highest point of that country's series. |
| `App.AppTrend` | app.py:519-626 | The line shows the selected countries' rows over all years, in table order, with one pair of extremes per country in selection order; or one country's rows with its markers; or the yearly means of the region or the world with theirs. Markers are the first lowest and highest points. An empty series gets no marker. |
| `App.SingleCountryKpi` | app.py:86-115 | "No data" exactly when the country has no row in the year. Otherwise the panel shows the country, its region name, its score and rank figures within their tie bounds. |
| `App.DashboardKpi` | app.py:519-631 | Several countries: "Custom Selection" with the number of distinct selected countries present in the year. One country: its own panel. None: "World" or the region title, with the number of distinct countries of that scope. |
| `AppNav.DisplayPage` | appnav.py:146-151 | "/ranking" gives the ranking layout, every other path the dashboard. |
| `AppNav.CountrySelection` | appnav.py:163-169 | The options are "All countries" and then the sorted countries of the table or of the region. The value is kept exactly when it fits the region, else it becomes "all". |
| `AppNav.SelectedValueOffered` | appnav.py:163-169 | The dropdown's value is always one of its options. |
| `AppNav.NavMapView` | appnav.py:170-177 | Map rows are the latest year's rows of the country, else of the region, else all. The region context is the country's region, else the selected region, else none. |
| `AppNav.LineCountry` | appnav.py:181-182 | The line shows the clicked country when the map click triggered the update, and otherwise the dropdown's country. |
| `AppNav.ContextRows` | appnav.py:192 | The rows of the region context, in table order and with their multiplicity. A NaN region matches no row. |
| `AppNav.NavLineView` | appnav.py:184-197 | The line is one country's rows over all years, in table order, else the yearly means of the region context when it is truthy, else those of the world. |
| `AppNav.AppendFieldBoxes` | appnav.py:43-56 | The loop over the KPI fields appends one box per field, in order, showing "-" when no row matches and the field's value otherwise, and leaves earlier boxes alone. |
| `AppNav.KpiPanelRow` | appnav.py:37-58 | Always five boxes with fixed captions. All "-" after the region box when no row matches. Otherwise the country, its score, and world and region ranks within their tie bounds, with totals of all rows of the year and of the region. |
| `AppNav.RankBoxValues` | appnav.py:46-52 | The "rank / total" values of the rank boxes are world and region positions within their tie bounds, with totals of all rows of the year and of the region. |
| `AppNav.FirstRegion` | appnav.py:188 | The KPI region is that of the country's first row in the table. |
| `AppNav.UpdateNavDashboard` | appnav.py:161-201 | Dropdown, map and line follow the rules above. The KPI row is empty exactly when the line shows an average. Otherwise it has five boxes with the country's first region: "-" after the region box when the country has no latest-year row, else its name, its score, and world and region ranks within their tie bounds with their totals. |
| `AppNav.NInputDisabled` | appnav.py:208-209 | The n input is disabled exactly in mode "all". |
| `AppNav.DisabledInputIgnored` | appnav.py:208-228 | While mode "all" disables the n input, the ranking page's rows do not depend on n. |
| `AppNav.EffectiveN` | appnav.py:226 | A missing or non-positive n becomes 10; any other n is kept. |
| `AppNav.RankingScope` | appnav.py:220-224 | The latest year's rows, of the region unless it is "all", in table order and with their multiplicity. |
| `AppNav.RankingSelection` | appnav.py:225-228 | "top"/"bottom": min(n, size) rows in descending/ascending order, taken from the scope, no row left out beating a kept one. Any other mode: the scope untouched. |
| `AppNav.BarHeight` | appnav.py:79 | The height is max(600, 25 · rows), never below 600. |
| `AppNav.RankingBarChart` | appnav.py:77-79 | The chart lists a permutation of the rows in ascending score order at that height. |
| `AppNav.UpdateRankingPage` | appnav.py:219-229 | The step-by-step narrowing computes `RankingSelection` and charts it. |

## Left out

- `appbase.py` is not part of this model: it only loads a CSV and hands it to a grid and a map.
- Loading the CSV at start-up: the table is an input of every function.
- Dash layouts, Bootstrap components, HTML styling and `kpi_box` rendering are left out, including box colours, titles and the colour-legend widths. So is every Plotly figure call and the colour-scale tables.
- The callback wiring is left out. `dash.callback_context` becomes a `fromMap` flag, and the click data becomes the clicked country's name (`click`). In `app.py` the callback's assembly of the map, line, KPI and table parts is left out too; each part is a function of the widget values.
- Floating point: a score is a `real`. A mean is kept exact as a sum and a count of present scores, so a NaN mean is count 0.
- `ColorScale.LineColorIndex`: `int(len * 0.7)` is modelled as the exact floor of 7·len/10, not as IEEE arithmetic.
- `Sorting.SortBy`: it is one admissible order of pandas' unstable quicksort (insertion order among ties). Every property of the sort used elsewhere is proved for any sorted permutation.
- Each input on which the source raises an error is a precondition of the member that models the failing step:
  - a NaN rank under `astype(int)` (`App.RankingTable`);
  - a country whose row has no region: the mask `region == NaN` keeps no row, so `.loc[country, "index"]` on the empty region frame raises a `KeyError` (`Ranking.Rankable`);
  - an empty table at `max(all_years)`;
  - a dropdown country with no row in the latest year (appnav.py:174), or a line country with no row at all (appnav.py:188) (`AppNav.NavDefined`);
  - `idxmin()` on a series of NaN scores (`App.TrendDefined`).
- In `app.py` one `update_dashboard` call computes all four parts, so any of these errors leaves the map, line, KPI and table all unproduced. `App.MapRows`, `App.AppTrend`, `App.DashboardKpi` and `App.RankingTable` each carry only the precondition of their own failing step. They are still defined on inputs where another part's step raises, so they do not capture that the whole callback fails. `AppNav.UpdateNavDashboard` does capture it for `appnav.py`: it requires the combined `AppNav.NavDefined`.
- `Ranking.Rankable` requires the country to be unique in its year: with duplicates `.loc` returns several positions and the panel prints them as a pandas Series, which the model does not represent.
- `AppNav.EffectiveN` takes `n` as an optional integer: the `type="number"` input can hold a fractional value, which the model does not represent.
- Every row is taken to have a country: `Row.country` is a plain string, so the `dropna()` on the country column (app.py lines 12 and 431, appnav.py lines 11 and 167) is the identity, and `nunique()` has no missing country to skip.
- `kpi_panel_row`'s default `region=None` is never used by its caller, so the parameter is always a value. None stands for NaN (shown as "nan").
- The ranking table keeps whole rows next to their rank. The display's three columns (`Rank`, country, score) are a projection of them.
