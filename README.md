# Population analysis plugin, modelled in Dafny

This project models the population analysis plugin of the webviz tutorial. The plugin is a Dash dashboard over
one World Bank CSV table. The table has one row per (country, indicator). Its first four columns are "Country
Name", "Country Code", "Indicator Name" and "Indicator Code". After them comes one column per year from 1960 on.

The plugin reads the table once and registers two session stores: the selected countries and the selected years.
It also registers a shared filter with a country list and a year range slider, and four views:

- **Birth indicators**: crude birth rate, fertility rate, life expectancy and sex ratio at birth.
- **Mortality rates and number of deaths**: death rate; adult, infant, neonatal and under-five mortality.
- **Population by ages**: one graph per five-year age band, or one stacked bar graph per country, in absolute
  numbers or as shares.
- **Population indicators**: total population, growth, rural against urban population, and rural and urban
  growth.

If the file cannot be read, the plugin registers nothing and shows a message that names the failure and the path.
The earlier tutorial revision of the plugin only reads the file and shows that message.

The model is pure Dafny functions over an explicit pandas-like table. Its pieces:

- **Cells**: a cell is `Missing`, `Text` or `Number(V)`, where the number type `V` is left abstract.
- **Table operations**, written out with pandas' rules:
  - a boolean row filter;
  - `dropna(axis="columns", how="all")`: a column stays when some row has a value in it;
  - `iloc` column slices, with Python's negative and clamped bounds;
  - `.values.tolist()[0]`, which raises `IndexError` on an empty table;
  - `drop_duplicates`.
- **Python errors**: an expression that raises becomes `Failure(IndexError | ZeroDivisionError | ValueError)` in
  a `Result`.
- **Chart series**: the three line-chart views build every series the same way. A `Variant` describes one kind of
  line: its indicator code, its name suffix, whether it is coloured, and its dash.
- **State-changing code**:
  - the plugin's registrations form a class whose methods append to its stores, settings groups and views;
  - the by-ages layout loop, which fills rows of at most four or `max_num_columns` graphs, is a method with a
    loop proved equal to its specification function.

## Model

| member | source | states |
|---|---|---|
| Python.ClampIndex | tutorial/webviz_wlf_tutorial/plugins/population_analysis/views/population/_by_ages.py:142-145 | one bound of a Python slice: negative counts from the end, then clamped into `[0, n]`, case by case |
| Python.Slice | tutorial/webviz_wlf_tutorial/plugins/population_analysis/views/population/_by_ages.py:142-145 | `s[a:b]` is never longer than `s`; it is `s` between the clamped bounds when they do not cross (negative bounds counted from the end, out-of-range ones clamped), and empty when they cross |
| Python.From | tutorial/webviz_wlf_tutorial/plugins/population_analysis/views/birth_death_fertility/_birth_indicators.py:99 | `s[a:]` is the suffix from `a` for an in-range `a` and empty past the end |
| Python.Str | tutorial/webviz_wlf_tutorial/plugins/population_analysis/views/population/_by_ages.py:52 | `str(n)` of a natural is a non-empty string of decimal digits, one digit exactly when `n < 10` |
| Python.ParseInt | tutorial/webviz_wlf_tutorial/plugins/population_analysis/shared_settings/_filter.py:39-43 | `int(s)` succeeds exactly on non-empty digit strings and then gives a non-negative value |
| Python.ParseStr | tutorial/webviz_wlf_tutorial/plugins/population_analysis/shared_settings/_filter.py:39-43 | `int(str(n)) == n`: the year labels written by `str` read back as the same year |
| Python.StrValue | tutorial/webviz_wlf_tutorial/plugins/population_analysis/views/population/_by_ages.py:52 | the digits of `str(n)` denote `n` |
| Python.StrInjective | tutorial/webviz_wlf_tutorial/plugins/population_analysis/views/population/_by_ages.py:51-64 | different numbers have different `str` texts |
| Python.ZFill | tutorial/webviz_wlf_tutorial/plugins/population_analysis/views/population/_by_ages.py:52 | `zfill(w)` pads on the left to width `w` and keeps the original text as its tail |
| Python.TwoDigits | tutorial/webviz_wlf_tutorial/plugins/population_analysis/views/population/_by_ages.py:52 | a number below 100 zero-filled to width two is its tens digit followed by its units digit |
| Python.EveryNth | tutorial/webviz_wlf_tutorial/plugins/population_analysis/shared_settings/_filter.py:39 | `s[::k]` starts with `s[0]` when `s` is non-empty |
| Python.EveryNthLength | tutorial/webviz_wlf_tutorial/plugins/population_analysis/shared_settings/_filter.py:39 | `s[::k]` has `ceil(len(s) / k)` elements |
| Python.EveryNthAt | tutorial/webviz_wlf_tutorial/plugins/population_analysis/shared_settings/_filter.py:39 | element `j` of `s[::k]` is `s[j * k]` |
| Python.RemoveAll | tutorial/webviz_wlf_tutorial/plugins/population_analysis/views/population/_by_ages.py:191-198 | `str.replace(pat, "")` never lengthens a string; what it removes is stated by `RemoveAllSkip` |
| Python.RemoveAllAbsent | tutorial/webviz_wlf_tutorial/plugins/population_analysis/views/population/_by_ages.py:191-198 | removing a pattern that does not occur leaves the string unchanged |
| Python.RemoveAllSkip | tutorial/webviz_wlf_tutorial/plugins/population_analysis/views/population/_by_ages.py:191-198 | an occurrence of the pattern whose first character appears nowhere before it is cut out: the text before it is kept and removal goes on after it |
| Python.RemoveAllNone | tutorial/webviz_wlf_tutorial/plugins/population_analysis/views/population/_by_ages.py:191-198 | a string without the pattern's first character is left unchanged |
| Python.RemoveAllOnce | tutorial/webviz_wlf_tutorial/plugins/population_analysis/views/population/_by_ages.py:191-198 | a single occurrence of the pattern, with the pattern's first character nowhere else, is cut out and the rest kept |
| Python.MapEnumerate | tutorial/webviz_wlf_tutorial/plugins/population_analysis/views/population/_by_ages.py:119-122 | a list built over `enumerate(xs)` has one element per input when no step raises |
| Python.MapEnumerateAt | tutorial/webviz_wlf_tutorial/plugins/population_analysis/views/population/_by_ages.py:119-122 | building the list succeeds exactly when every step does; element `i` is step `i`'s value; a failure is the error of some step |
| Python.MapBlocksSucceed | tutorial/webviz_wlf_tutorial/plugins/population_analysis/views/birth_death_fertility/_birth_indicators.py:145-226 | concatenated comprehensions (one block per line kind, one entry per country) succeed exactly when every entry does; a failure is some entry's error |
| Python.MapBlocksLength | tutorial/webviz_wlf_tutorial/plugins/population_analysis/views/birth_death_fertility/_birth_indicators.py:145-226 | the concatenation has one block of `len(countries)` entries per line kind |
| Python.MapBlocksEntry | tutorial/webviz_wlf_tutorial/plugins/population_analysis/views/birth_death_fertility/_birth_indicators.py:145-226 | entry `i` of block `k` sits at `k * len(countries) + i` and is what that country's step built |
| Python.Range | tutorial/webviz_wlf_tutorial/plugins/population_analysis/views/population/_by_ages.py:52 | `range(start, stop, step)` is empty when `start >= stop` and otherwise starts at `start` |
| Python.RangeAt | tutorial/webviz_wlf_tutorial/plugins/population_analysis/views/population/_by_ages.py:52 | every element of a range lies in `[start, stop)` and each is `step` above the one before |
| Python.Zip | tutorial/webviz_wlf_tutorial/plugins/population_analysis/views/population/_by_ages.py:121 | `zip(a, b)` has the shorter length and pairs equal positions |
| Python.InterleaveAt | tutorial/webviz_wlf_tutorial/plugins/population_analysis/views/population/_by_ages.py:249-282 | the interleaved female/male bar values alternate `a[k]`, `b[k]` for the shorter length |
| Tables.KeepRows | tutorial/webviz_wlf_tutorial/plugins/population_analysis/views/birth_death_fertility/_birth_indicators.py:89-92 | a boolean row filter never adds rows |
| Tables.KeepRowsMembers | tutorial/webviz_wlf_tutorial/plugins/population_analysis/views/birth_death_fertility/_birth_indicators.py:89-92 | a filter keeps exactly the rows that pass the test, no others |
| Tables.KeepRowsAppend | tutorial/webviz_wlf_tutorial/plugins/population_analysis/views/birth_death_fertility/_birth_indicators.py:89-92 | filtering a concatenation is concatenating the filtered parts, so the filter keeps row order |
| Tables.KeepRowsWidth | tutorial/webviz_wlf_tutorial/plugins/population_analysis/views/birth_death_fertility/_birth_indicators.py:89-92 | a filter keeps the row width |
| Tables.Where | tutorial/webviz_wlf_tutorial/plugins/population_analysis/views/birth_death_fertility/_birth_indicators.py:89-92 | `df.loc[df[col] == x]` keeps the column labels and exactly the passing rows |
| Tables.WhereData | tutorial/webviz_wlf_tutorial/plugins/population_analysis/views/birth_death_fertility/_birth_indicators.py:23-41 | filtering a dataset by indicator code keeps its columns, the four label headers included, and holds exactly the rows that pass the test |
| Tables.Mask | tutorial/webviz_wlf_tutorial/plugins/population_analysis/views/birth_death_fertility/_birth_indicators.py:94 | the `dropna(how="all")` mask keeps column `j` exactly when some row has a value there, and nothing for a table with no rows |
| Tables.Compress | tutorial/webviz_wlf_tutorial/plugins/population_analysis/views/birth_death_fertility/_birth_indicators.py:94 | selecting by a mask gives one element per true entry |
| Tables.CompressAppend | tutorial/webviz_wlf_tutorial/plugins/population_analysis/views/birth_death_fertility/_birth_indicators.py:94 | mask selection distributes over concatenation |
| Tables.DropEmptyColumns | tutorial/webviz_wlf_tutorial/plugins/population_analysis/views/birth_death_fertility/_birth_indicators.py:94 | `dropna(axis="columns", how="all")` keeps every row, and keeps exactly the labels and cells of columns that have a value |
| Tables.DropEmptyColumnsIdempotent | tutorial/webviz_wlf_tutorial/plugins/population_analysis/views/birth_death_fertility/_birth_indicators.py:94 | dropping empty columns twice is dropping them once |
| Tables.ILocColumns | tutorial/webviz_wlf_tutorial/plugins/population_analysis/views/birth_death_fertility/_birth_indicators.py:101 | `iloc[:, a:b]` slices the labels and every row with the same Python slice |
| Tables.MaskOfSlice | tutorial/webviz_wlf_tutorial/plugins/population_analysis/views/birth_death_fertility/_birth_indicators.py:101-102 | the empty-column mask of a column slice is the slice of the mask: `iloc` then `dropna` keeps what `dropna` would keep in that range |
| Tables.FirstRow | tutorial/webviz_wlf_tutorial/plugins/population_analysis/views/birth_death_fertility/_birth_indicators.py:103 | `.values.tolist()[0]` is the first row, and an `IndexError` exactly when no row is left |
| Tables.Column | tutorial/webviz_wlf_tutorial/plugins/population_analysis/shared_settings/_filter.py:20-22 | a column lists each row's cell in row order |
| Tables.Distinct | tutorial/webviz_wlf_tutorial/plugins/population_analysis/shared_settings/_filter.py:20-22 | `drop_duplicates` keeps every value once and adds none |
| Tables.DistinctOrder | tutorial/webviz_wlf_tutorial/plugins/population_analysis/shared_settings/_filter.py:20-22 | `drop_duplicates` lists values in the order of their first occurrence |
| Tables.DistinctCountries | tutorial/webviz_wlf_tutorial/plugins/population_analysis/shared_settings/_filter.py:20-22 | the country list holds every country of the table, once each, and nothing else |
| Charts.XOf | tutorial/webviz_wlf_tutorial/plugins/population_analysis/views/birth_death_fertility/_birth_indicators.py:90-96 | the x values of a series are the year labels of the non-empty columns; none for no rows |
| Charts.YOf | tutorial/webviz_wlf_tutorial/plugins/population_analysis/views/birth_death_fertility/_birth_indicators.py:97-104 | the y values of a series are an `IndexError` exactly when no row matched |
| Charts.PresentMask | tutorial/webviz_wlf_tutorial/plugins/population_analysis/views/birth_death_fertility/_birth_indicators.py:94 | a single row's mask marks exactly its present cells |
| Charts.SingleRowMask | tutorial/webviz_wlf_tutorial/plugins/population_analysis/views/birth_death_fertility/_birth_indicators.py:94 | with one row, the `dropna` mask is that row's presence mask |
| Charts.XOfYears | tutorial/webviz_wlf_tutorial/plugins/population_analysis/views/birth_death_fertility/_birth_indicators.py:90-96 | with the label columns present, x is the year labels selected by the year part of the mask |
| Charts.YOfYears | tutorial/webviz_wlf_tutorial/plugins/population_analysis/views/birth_death_fertility/_birth_indicators.py:97-104 | y is the first row's year cells selected by the same mask |
| Charts.SeriesAligned | tutorial/webviz_wlf_tutorial/plugins/population_analysis/views/birth_death_fertility/_birth_indicators.py:88-104 | x and y of a single-table series have the same length |
| Charts.SingleRowSeries | tutorial/webviz_wlf_tutorial/plugins/population_analysis/views/birth_death_fertility/_birth_indicators.py:88-104 | for a country with one row, x are the years where that row has a value, y are those values, and no value is missing |
| Charts.SubsetSeriesShorter | tutorial/webviz_wlf_tutorial/plugins/population_analysis/views/birth_death_fertility/_mortality_rates_and_death.py:153-212 | y taken from fewer rows (one code) is never longer than x taken from all the country's rows |
| Charts.CountryRows | tutorial/webviz_wlf_tutorial/plugins/population_analysis/views/birth_death_fertility/_birth_indicators.py:89-92 | the country's rows are rows of the table with that country's name, all of them, under the same columns, and there are some exactly when the table has a row for the country |
| Charts.CountryFilterNonEmpty | tutorial/webviz_wlf_tutorial/plugins/population_analysis/views/birth_death_fertility/_birth_indicators.py:89-92 | the country-name filter keeps some row exactly when the table has a row for the country |
| Charts.HasRowWhere | tutorial/webviz_wlf_tutorial/plugins/population_analysis/views/birth_death_fertility/_birth_indicators.py:23-41 | narrowing the table to a code set first does not change whether a (country, code) row exists, for a code in the set |
| Charts.HasRowOnlyCode | tutorial/webviz_wlf_tutorial/plugins/population_analysis/views/birth_death_fertility/_birth_indicators.py:23-41 | in a one-code table, "the country has a row" means "the country has a row of that code" |
| Charts.MatchingRowKept | tutorial/webviz_wlf_tutorial/plugins/population_analysis/views/birth_death_fertility/_mortality_rates_and_death.py:153-212 | the rows kept for (country, code) are table rows that match, and some are kept exactly when such a row exists |
| Charts.VariantRows | tutorial/webviz_wlf_tutorial/plugins/population_analysis/views/birth_death_fertility/_mortality_rates_and_death.py:153-212 | the rows behind one line kind are table rows of that country and code; some exist exactly when the table has such a row |
| Charts.CodeRows | tutorial/webviz_wlf_tutorial/plugins/population_analysis/views/population/_by_ages.py:127-148 | the rows of one country and code are table rows matching both; some exist exactly when the table has one |
| Charts.XRows | tutorial/webviz_wlf_tutorial/plugins/population_analysis/views/birth_death_fertility/_mortality_rates_and_death.py:153-212 | x is taken from rows of the table for the country, and of the line's code where the source filters x by code; there are some exactly when the table has such a row |
| Charts.BuildSeries | tutorial/webviz_wlf_tutorial/plugins/population_analysis/views/birth_death_fertility/_birth_indicators.py:88-113 | a series exists exactly when the table has a row for the country and code, else `IndexError`; it is named country plus suffix, has the line's dash and colour `i mod 10` |
| Charts.SeriesNoLongerThanX | tutorial/webviz_wlf_tutorial/plugins/population_analysis/views/birth_death_fertility/_mortality_rates_and_death.py:153-212 | a series never has more y values than x labels |
| Charts.SeriesOfSingleRow | tutorial/webviz_wlf_tutorial/plugins/population_analysis/views/birth_death_fertility/_birth_indicators.py:88-113 | with one row behind the series, x and y are that row's present years and values, of equal length, none missing |
| Charts.FilteredSeriesAligned | tutorial/webviz_wlf_tutorial/plugins/population_analysis/_views/_population/_indicators/_view.py:255-344 | when x and y come from the same rows, they have equal length |
| Charts.SeriesPerCountryExists | tutorial/webviz_wlf_tutorial/plugins/population_analysis/views/birth_death_fertility/_birth_indicators.py:88-113 | one comprehension over the countries succeeds exactly when every country has a row, and entry `i` is country `i`'s series |
| Charts.RowsForAll | tutorial/webviz_wlf_tutorial/plugins/population_analysis/views/birth_death_fertility/_birth_indicators.py:145-226 | "every line kind has a row for every country", by index and by membership, are the same condition |
| Charts.BlocksSucceedAt | tutorial/webviz_wlf_tutorial/plugins/population_analysis/views/birth_death_fertility/_birth_indicators.py:145-226 | the concatenated comprehensions succeed exactly when every (line kind, country) has a row, else `IndexError` |
| Charts.BlocksSucceed | tutorial/webviz_wlf_tutorial/plugins/population_analysis/views/birth_death_fertility/_birth_indicators.py:145-226 | the same condition stated over membership |
| Charts.BlocksEntry | tutorial/webviz_wlf_tutorial/plugins/population_analysis/views/birth_death_fertility/_birth_indicators.py:145-226 | entry `(k, i)` of the concatenation is the series line kind `k` builds for country `i` |
| Charts.BlocksShow | tutorial/webviz_wlf_tutorial/plugins/population_analysis/views/birth_death_fertility/_birth_indicators.py:145-226 | the whole data list shows every (line kind, country) series block by block |
| Charts.ShowsSeries | tutorial/webviz_wlf_tutorial/plugins/population_analysis/views/birth_death_fertility/_birth_indicators.py:145-226 | the entry shown at `k * n + i` is exactly `BuildSeries` for line kind `k` and country `i` |
| Charts.ShowsEntryAt | tutorial/webviz_wlf_tutorial/plugins/population_analysis/views/birth_death_fertility/_birth_indicators.py:145-226 | a shown data list has entry `(k, i)` in place |
| Charts.LineChart | tutorial/webviz_wlf_tutorial/plugins/population_analysis/views/birth_death_fertility/_birth_indicators.py:87-114 | a line chart exists exactly when every (line kind, country) has a row, else `IndexError`; it keeps the title and uses the selected years as x range |
| Charts.LineChartShows | tutorial/webviz_wlf_tutorial/plugins/population_analysis/views/birth_death_fertility/_birth_indicators.py:87-114 | a line chart's data is every line kind's block of country series, in order |
| Charts.ShowsAt | tutorial/webviz_wlf_tutorial/plugins/population_analysis/views/birth_death_fertility/_birth_indicators.py:145-226 | the series at `k * n + i` is named, dashed and coloured for line kind `k` and country `i` |
| Charts.CountryLineAt | tutorial/webviz_wlf_tutorial/plugins/population_analysis/views/birth_death_fertility/_birth_indicators.py:87-114 | in a single-indicator chart, series `i` is named after country `i` with default colour and dash; with one full row its x and y match and none is missing |
| Charts.CountryLines | tutorial/webviz_wlf_tutorial/plugins/population_analysis/views/birth_death_fertility/_birth_indicators.py:87-114 | a single-indicator chart has one series per country, named and styled as above |
| Charts.SingleCodeChart | tutorial/webviz_wlf_tutorial/plugins/population_analysis/views/birth_death_fertility/_birth_indicators.py:87-114 | a single-indicator chart succeeds exactly when every selected country has a row of the code |
| Charts.VariantChart | tutorial/webviz_wlf_tutorial/plugins/population_analysis/views/birth_death_fertility/_birth_indicators.py:145-232 | a chart over a code set succeeds exactly when every selected country has a row of every line's code |
| Charts.ShowsNoLongerThanX | tutorial/webviz_wlf_tutorial/plugins/population_analysis/views/birth_death_fertility/_mortality_rates_and_death.py:153-212 | no shown series has more y values than x labels |
| Charts.ShowsAligned | tutorial/webviz_wlf_tutorial/plugins/population_analysis/_views/_population/_indicators/_view.py:255-344 | a shown series whose x and y come from the same rows has equal lengths |
| Charts.ShowsTwoStyled | tutorial/webviz_wlf_tutorial/plugins/population_analysis/views/birth_death_fertility/_mortality_rates_and_death.py:153-212 | with two line kinds, series `i` and `n + i` are country `i`'s first and second kind |
| Charts.TwoBlocksStyled | tutorial/webviz_wlf_tutorial/plugins/population_analysis/views/birth_death_fertility/_mortality_rates_and_death.py:153-212 | the same for the chart a two-kind `LineChart` builds |
| Charts.ShowsThreeStyled | tutorial/webviz_wlf_tutorial/plugins/population_analysis/views/birth_death_fertility/_birth_indicators.py:145-226 | with three line kinds, series `i`, `n + i` and `2n + i` are country `i`'s three kinds |
| Charts.ThreeBlocksStyled | tutorial/webviz_wlf_tutorial/plugins/population_analysis/views/birth_death_fertility/_birth_indicators.py:145-226 | the same for the chart a three-kind `LineChart` builds |
| Charts.ShowsTwoNoLongerThanX | tutorial/webviz_wlf_tutorial/plugins/population_analysis/views/birth_death_fertility/_mortality_rates_and_death.py:153-212 | in a two-kind chart with x from all the country's rows, neither of country `i`'s series has more y than x |
| Charts.TwoBlocksNoLongerThanX | tutorial/webviz_wlf_tutorial/plugins/population_analysis/views/birth_death_fertility/_mortality_rates_and_death.py:153-212 | the same for a two-kind `LineChart` |
| Charts.ShowsThreeNoLongerThanX | tutorial/webviz_wlf_tutorial/plugins/population_analysis/views/birth_death_fertility/_birth_indicators.py:145-226 | the same with three kinds |
| Charts.ThreeBlocksNoLongerThanX | tutorial/webviz_wlf_tutorial/plugins/population_analysis/views/birth_death_fertility/_birth_indicators.py:145-226 | the same for a three-kind `LineChart` |
| Charts.ShowsTwoAligned | tutorial/webviz_wlf_tutorial/plugins/population_analysis/_views/_population/_indicators/_view.py:255-344 | in a two-kind chart with x filtered by code, both of country `i`'s series have x and y of equal length |
| Charts.TwoBlocksAligned | tutorial/webviz_wlf_tutorial/plugins/population_analysis/_views/_population/_indicators/_view.py:255-344 | the same for a two-kind `LineChart` |
| Charts.ShowsThreeAligned | tutorial/webviz_wlf_tutorial/plugins/population_analysis/_views/_population/_indicators/_view.py:114-224 | the same with three kinds |
| Charts.ThreeBlocksAligned | tutorial/webviz_wlf_tutorial/plugins/population_analysis/_views/_population/_indicators/_view.py:114-224 | the same for a three-kind `LineChart` |
| SharedFilter.Options | tutorial/webviz_wlf_tutorial/plugins/population_analysis/shared_settings/_filter.py:31 | one option per country, with the country as both label and value |
| SharedFilter.ListSize | tutorial/webviz_wlf_tutorial/plugins/population_analysis/shared_settings/_filter.py:34 | the list shows `min(15, len(countries))` rows |
| SharedFilter.Init | tutorial/webviz_wlf_tutorial/plugins/population_analysis/shared_settings/_filter.py:17-24 | the filter's years are the labels from the fifth column on; its countries are the table's countries, each once |
| SharedFilter.InitCountriesOrder | tutorial/webviz_wlf_tutorial/plugins/population_analysis/shared_settings/_filter.py:20-22 | the countries are in order of first appearance in the table |
| SharedFilter.Mark | tutorial/webviz_wlf_tutorial/plugins/population_analysis/shared_settings/_filter.py:39 | a mark is the label with its `int` value, and a `ValueError` exactly when the label is not a number |
| SharedFilter.Marks | tutorial/webviz_wlf_tutorial/plugins/population_analysis/shared_settings/_filter.py:39 | the marks are every 25th year label with its value; `ValueError` exactly when one of them does not parse |
| SharedFilter.Layout | tutorial/webviz_wlf_tutorial/plugins/population_analysis/shared_settings/_filter.py:26-47 | the layout fails with `IndexError` for no countries or no years and `ValueError` for an unparsable year; otherwise the list selects the first country and the slider spans first to last year with every 25th year marked |
| SharedFilter.LayoutOfYearColumns | tutorial/webviz_wlf_tutorial/plugins/population_analysis/shared_settings/_filter.py:17-47 | for a table whose year columns run 1960, 1961, …, the layout succeeds and the slider runs from 1960 to the last year with marks 1960, 1985, … |
| SharedFilter.MarksOfYears | tutorial/webviz_wlf_tutorial/plugins/population_analysis/shared_settings/_filter.py:39 | consecutive year labels from 1960 give marks `(str(1960 + 25 j), 1960 + 25 j)` |
| SharedFilter.SetCountries | tutorial/webviz_wlf_tutorial/plugins/population_analysis/shared_settings/_filter.py:59-60 | the country callback passes the selection to its store unchanged; the earlier revision's country group (`_country_selection.py`) has the same callback |
| SharedFilter.SetYears | tutorial/webviz_wlf_tutorial/plugins/population_analysis/shared_settings/_filter.py:69-70 | the year callback passes the range to its store unchanged |
| CountrySelection.Init | tutorial/webviz_wlf_tutorial/plugins/population_analysis/shared_settings/_country_selection.py:15 | the selection's countries are the table's countries, each once |
| CountrySelection.InitCountriesOrder | tutorial/webviz_wlf_tutorial/plugins/population_analysis/shared_settings/_country_selection.py:15 | in order of first appearance |
| CountrySelection.Layout | tutorial/webviz_wlf_tutorial/plugins/population_analysis/shared_settings/_country_selection.py:17-24 | every country is an option and starts selected; the list shows at most 15 rows |
| PopulationPlugin.ErrorMessage | tutorial/webviz_wlf_tutorial/plugins/population_analysis/_plugin.py:78-100 | a failure message quotes the path between single quotes and ends with a full stop |
| PopulationPlugin.Message | tutorial/webviz_wlf_tutorial/plugins/population_analysis/_plugin.py:75-100 | the message is empty exactly when the read succeeded, and is the failure's message otherwise |
| PopulationPlugin.SuffixesDiffer | tutorial/webviz_wlf_tutorial/plugins/population_analysis/_plugin.py:78-100 | no two failures' message endings can be confused |
| PopulationPlugin.ErrorMessageInjective | tutorial/webviz_wlf_tutorial/plugins/population_analysis/_plugin.py:78-100 | a message determines both the failure and the path |
| PopulationPlugin.Views | tutorial/webviz_wlf_tutorial/plugins/population_analysis/_plugin.py:114-134 | four views in order: birth indicators and mortality in one group, by ages and indicators in the other, all built from the whole table |
| PopulationPlugin.PopulationAnalysis.constructor | tutorial/webviz_wlf_tutorial/plugins/population_analysis/_plugin.py:72-134 | a failed read leaves a message and nothing registered; a read registers the two stores, the filter and the four views, in that order |
| PopulationPlugin.PopulationAnalysis.Register | tutorial/webviz_wlf_tutorial/plugins/population_analysis/_plugin.py:102-134 | the registrations append exactly the two stores, the filter built from the table and the four views in their groups, leave the message alone, and leave the plugin consistent |
| PopulationPlugin.PopulationAnalysis.AddStore | tutorial/webviz_wlf_tutorial/plugins/population_analysis/_plugin.py:102-107 | one store more, nothing else changes |
| PopulationPlugin.PopulationAnalysis.AddSharedSettingsGroup | tutorial/webviz_wlf_tutorial/plugins/population_analysis/_plugin.py:109-112 | one settings group more, nothing else changes |
| PopulationPlugin.PopulationAnalysis.AddView | tutorial/webviz_wlf_tutorial/plugins/population_analysis/_plugin.py:114-134 | one view more, nothing else changes |
| PopulationPlugin.PopulationAnalysis.Layout | tutorial/webviz_wlf_tutorial/plugins/population_analysis/_plugin.py:320-327 | the layout shows the plugin's message |
| TutorialPlugin.TutorialErrorMessage | tutorial/code/PopulationPlugin/_plugin.py:46-57 | the earlier revision's message quotes the path, and words every failure like the later revision except a denied permission |
| TutorialPlugin.TutorialMessage | tutorial/code/PopulationPlugin/_plugin.py:42-57 | no message exactly after a successful read |
| TutorialPlugin.RevisionsDiffer | tutorial/code/PopulationPlugin/_plugin.py:47 | the two revisions' messages differ exactly for a denied permission, which reads "fil" |
| TutorialPlugin.TutorialErrorMessageInjective | tutorial/code/PopulationPlugin/_plugin.py:46-57 | the earlier revision's message still determines failure and path |
| TutorialPlugin.Shown | tutorial/code/PopulationPlugin/_plugin.py:60-63 | the error page is shown exactly for a non-empty message |
| TutorialPlugin.PopulationAnalysis.constructor | tutorial/code/PopulationPlugin/_plugin.py:39-57 | the plugin keeps the table after a read and the message after a failure |
| TutorialPlugin.PopulationAnalysis.Layout | tutorial/code/PopulationPlugin/_plugin.py:60-63 | the layout is what the stored message shows |
| TutorialPlugin.ShownAfterRead | tutorial/code/PopulationPlugin/_plugin.py:39-63 | the error page appears exactly when the read failed, with that failure's message; otherwise the framework's own layout |
| BirthIndicators.Init | tutorial/webviz_wlf_tutorial/plugins/population_analysis/views/birth_death_fertility/_birth_indicators.py:23-41 | each table keeps exactly the rows of its indicator code or codes |
| BirthIndicators.UpdatePlots | tutorial/webviz_wlf_tutorial/plugins/population_analysis/views/birth_death_fertility/_birth_indicators.py:84-263 | the four figures carry their titles and the selected years as x range; any failure is an `IndexError` |
| BirthIndicators.UpdatePlotsShow | tutorial/webviz_wlf_tutorial/plugins/population_analysis/views/birth_death_fertility/_birth_indicators.py:87-261 | each figure shows its line kinds' series for every selected country, block by block |
| BirthIndicators.UpdatePlotsCharts | tutorial/webviz_wlf_tutorial/plugins/population_analysis/views/birth_death_fertility/_birth_indicators.py:84-263 | the update succeeds exactly when all four charts do |
| BirthIndicators.UpdatePlotsSucceeds | tutorial/webviz_wlf_tutorial/plugins/population_analysis/views/birth_death_fertility/_birth_indicators.py:84-263 | the update succeeds exactly when every selected country has a row of each indicator used |
| BirthIndicators.BirthRateChartSucceeds | tutorial/webviz_wlf_tutorial/plugins/population_analysis/views/birth_death_fertility/_birth_indicators.py:87-114 | the birth rate chart succeeds exactly when every selected country has a birth rate row |
| BirthIndicators.FertilityRateChartSucceeds | tutorial/webviz_wlf_tutorial/plugins/population_analysis/views/birth_death_fertility/_birth_indicators.py:116-143 | the same for the fertility rate |
| BirthIndicators.LifeExpectancyChartSucceeds | tutorial/webviz_wlf_tutorial/plugins/population_analysis/views/birth_death_fertility/_birth_indicators.py:145-232 | the same for the three life expectancy codes |
| BirthIndicators.SexRatioChartSucceeds | tutorial/webviz_wlf_tutorial/plugins/population_analysis/views/birth_death_fertility/_birth_indicators.py:234-261 | the same for the sex ratio |
| BirthIndicators.SingleIndicatorCharts | tutorial/webviz_wlf_tutorial/plugins/population_analysis/views/birth_death_fertility/_birth_indicators.py:87-143 | birth rate, fertility and sex ratio have one series per country named after it; one full row gives equal x and y with nothing missing |
| BirthIndicators.LifeExpectancyChart | tutorial/webviz_wlf_tutorial/plugins/population_analysis/views/birth_death_fertility/_birth_indicators.py:145-232 | the life expectancy figure is the three-kind line chart |
| BirthIndicators.LifeExpectancyAt | tutorial/webviz_wlf_tutorial/plugins/population_analysis/views/birth_death_fertility/_birth_indicators.py:145-226 | country `i` has a female (dashed), a male (dotted) and a total (solid) line at `i`, `n + i` and `2n + i`, all in colour `i mod 10` |
| BirthIndicators.LifeExpectancyNoLongerThanX | tutorial/webviz_wlf_tutorial/plugins/population_analysis/views/birth_death_fertility/_birth_indicators.py:145-226 | none of country `i`'s three lines has more y values than x labels |
| MortalityRates.Init | tutorial/webviz_wlf_tutorial/plugins/population_analysis/views/birth_death_fertility/_mortality_rates_and_death.py:20-45 | each table keeps exactly the rows of its indicator code or codes |
| MortalityRates.UpdatePlots | tutorial/webviz_wlf_tutorial/plugins/population_analysis/views/birth_death_fertility/_mortality_rates_and_death.py:119-437 | the five figures carry their titles and the selected years as x range; any failure is an `IndexError` |
| MortalityRates.UpdatePlotsShow | tutorial/webviz_wlf_tutorial/plugins/population_analysis/views/birth_death_fertility/_mortality_rates_and_death.py:122-429 | each figure shows its line kinds' series for every selected country, block by block |
| MortalityRates.UpdatePlotsCharts | tutorial/webviz_wlf_tutorial/plugins/population_analysis/views/birth_death_fertility/_mortality_rates_and_death.py:119-437 | the update succeeds exactly when all five charts do |
| MortalityRates.UpdatePlotsSucceeds | tutorial/webviz_wlf_tutorial/plugins/population_analysis/views/birth_death_fertility/_mortality_rates_and_death.py:119-437 | the update succeeds exactly when every selected country has a row of each indicator used |
| MortalityRates.AdultChartSucceeds | tutorial/webviz_wlf_tutorial/plugins/population_analysis/views/birth_death_fertility/_mortality_rates_and_death.py:153-212 | the adult chart succeeds exactly when every country has both adult rows |
| MortalityRates.InfantChartSucceeds | tutorial/webviz_wlf_tutorial/plugins/population_analysis/views/birth_death_fertility/_mortality_rates_and_death.py:214-300 | the same for the three infant codes |
| MortalityRates.UnderFiveChartSucceeds | tutorial/webviz_wlf_tutorial/plugins/population_analysis/views/birth_death_fertility/_mortality_rates_and_death.py:331-429 | the same for the three under-five codes |
| MortalityRates.SingleIndicatorCharts | tutorial/webviz_wlf_tutorial/plugins/population_analysis/views/birth_death_fertility/_mortality_rates_and_death.py:122-149 | death rate and neonatal have one uncoloured series per country named after it; one full row gives equal x and y with nothing missing |
| MortalityRates.VariantCharts | tutorial/webviz_wlf_tutorial/plugins/population_analysis/views/birth_death_fertility/_mortality_rates_and_death.py:153-429 | the adult, infant and under-five figures are their line charts |
| MortalityRates.AdultsAt | tutorial/webviz_wlf_tutorial/plugins/population_analysis/views/birth_death_fertility/_mortality_rates_and_death.py:153-212 | country `i` has a dotted female and a dashed male line at `i` and `n + i`, in colour `i mod 10` |
| MortalityRates.InfantsAt | tutorial/webviz_wlf_tutorial/plugins/population_analysis/views/birth_death_fertility/_mortality_rates_and_death.py:214-300 | country `i` has dotted female, dashed male and solid total lines at `i`, `n + i`, `2n + i`, in one colour |
| MortalityRates.UnderFiveAt | tutorial/webviz_wlf_tutorial/plugins/population_analysis/views/birth_death_fertility/_mortality_rates_and_death.py:331-429 | the same for under-five mortality |
| MortalityRates.AdultsNoLongerThanX | tutorial/webviz_wlf_tutorial/plugins/population_analysis/views/birth_death_fertility/_mortality_rates_and_death.py:153-212 | neither adult line has more y values than x labels |
| MortalityRates.InfantsNoLongerThanX | tutorial/webviz_wlf_tutorial/plugins/population_analysis/views/birth_death_fertility/_mortality_rates_and_death.py:214-300 | no infant line has more y values than x labels |
| MortalityRates.UnderFiveNoLongerThanX | tutorial/webviz_wlf_tutorial/plugins/population_analysis/views/birth_death_fertility/_mortality_rates_and_death.py:331-429 | no under-five line has more y values than x labels |
| PopulationIndicators.PopulationTitle | tutorial/webviz_wlf_tutorial/plugins/population_analysis/_views/_population/_indicators/_view.py:119-123 | the title is "Population", with a share note only in relative mode |
| PopulationIndicators.RuralUrbanTitle | tutorial/webviz_wlf_tutorial/plugins/population_analysis/_views/_population/_indicators/_view.py:260 | the title is "Rural vs urban population", with a share note only in relative mode |
| PopulationIndicators.Init | tutorial/webviz_wlf_tutorial/plugins/population_analysis/_views/_population/_indicators/_view.py:21-52 | each table keeps exactly the rows of its indicator codes |
| PopulationIndicators.PopulationVariants | tutorial/webviz_wlf_tutorial/plugins/population_analysis/_views/_population/_indicators/_view.py:114-224 | absolute mode draws total, female and male lines; relative mode female and male |
| PopulationIndicators.RuralUrbanVariants | tutorial/webviz_wlf_tutorial/plugins/population_analysis/_views/_population/_indicators/_view.py:255-344 | rural and urban lines in both modes |
| PopulationIndicators.UpdatePlots | tutorial/webviz_wlf_tutorial/plugins/population_analysis/_views/_population/_indicators/_view.py:109-424 | the four figures carry their mode's titles and the selected years as x range; any failure is an `IndexError` |
| PopulationIndicators.UpdatePlotsCharts | tutorial/webviz_wlf_tutorial/plugins/population_analysis/_views/_population/_indicators/_view.py:109-424 | the update succeeds exactly when the four mode-dependent charts do, and each figure is its chart |
| PopulationIndicators.PopulationChartSucceeds | tutorial/webviz_wlf_tutorial/plugins/population_analysis/_views/_population/_indicators/_view.py:114-224 | the population chart succeeds exactly when every country has a row of each line's code in that mode |
| PopulationIndicators.RuralUrbanChartSucceeds | tutorial/webviz_wlf_tutorial/plugins/population_analysis/_views/_population/_indicators/_view.py:255-344 | the same for the rural/urban chart |
| PopulationIndicators.RuralUrbanGrowthChartSucceeds | tutorial/webviz_wlf_tutorial/plugins/population_analysis/_views/_population/_indicators/_view.py:346-417 | the same for rural and urban growth |
| PopulationIndicators.UpdatePlotsSucceeds | tutorial/webviz_wlf_tutorial/plugins/population_analysis/_views/_population/_indicators/_view.py:109-424 | the update succeeds exactly when every country has the rows every chart needs in that mode |
| PopulationIndicators.GrowthChart | tutorial/webviz_wlf_tutorial/plugins/population_analysis/_views/_population/_indicators/_view.py:226-253 | one uncoloured solid growth series per country, named after it |
| PopulationIndicators.PopulationAbsoluteAt | tutorial/webviz_wlf_tutorial/plugins/population_analysis/_views/_population/_indicators/_view.py:114-224 | absolute mode: solid total, dashed female and dotted male lines per country, in one colour |
| PopulationIndicators.PopulationSharesAt | tutorial/webviz_wlf_tutorial/plugins/population_analysis/_views/_population/_indicators/_view.py:114-224 | relative mode: dashed female and dotted male lines per country, in one colour |
| PopulationIndicators.RuralUrbanAt | tutorial/webviz_wlf_tutorial/plugins/population_analysis/_views/_population/_indicators/_view.py:255-344 | dashed rural and dotted urban lines per country, in one colour |
| PopulationIndicators.RuralUrbanGrowthAt | tutorial/webviz_wlf_tutorial/plugins/population_analysis/_views/_population/_indicators/_view.py:346-417 | the same for the growth chart |
| PopulationIndicators.PopulationAbsoluteAligned | tutorial/webviz_wlf_tutorial/plugins/population_analysis/_views/_population/_indicators/_view.py:114-224 | each absolute population line has as many y values as x labels |
| PopulationIndicators.RuralUrbanAligned | tutorial/webviz_wlf_tutorial/plugins/population_analysis/_views/_population/_indicators/_view.py:255-344 | each rural/urban line has as many y values as x labels |
| PopulationByAges.BandStartValues | tutorial/webviz_wlf_tutorial/plugins/population_analysis/views/population/_by_ages.py:52 | `range(0, 76, 5)` is the sixteen band starts `0, 5, …, 75` |
| PopulationByAges.AgeCodesAt | tutorial/webviz_wlf_tutorial/plugins/population_analysis/views/population/_by_ages.py:51-64 | each code list has the sixteen five-year bands plus the 80+ band, `k`-th code for band `k` |
| PopulationByAges.BandCodeDigits | tutorial/webviz_wlf_tutorial/plugins/population_analysis/views/population/_by_ages.py:52 | a band code is `SP.POP.` followed by the two-digit start and end ages, the sex and the suffix |
| PopulationByAges.AgeDigits | tutorial/webviz_wlf_tutorial/plugins/population_analysis/views/population/_by_ages.py:52 | the four age digits of a band code are the decimal digits of its start and end ages |
| PopulationByAges.ShareCodes | tutorial/webviz_wlf_tutorial/plugins/population_analysis/views/population/_by_ages.py:57-64 | a share code is the absolute code of the same band with `.5Y` appended |
| PopulationByAges.SexCodes | tutorial/webviz_wlf_tutorial/plugins/population_analysis/views/population/_by_ages.py:51-64 | the female and male codes of band `k` differ only in `FE`/`MA` |
| PopulationByAges.AgeCodesDistinct | tutorial/webviz_wlf_tutorial/plugins/population_analysis/views/population/_by_ages.py:51-64 | no code occurs twice in a list |
| PopulationByAges.YearColumns | tutorial/webviz_wlf_tutorial/plugins/population_analysis/views/population/_by_ages.py:117 | the year column indices exist exactly for at least two selected years, keep their distance, and are an `IndexError` otherwise |
| PopulationByAges.YearWindow | tutorial/webviz_wlf_tutorial/plugins/population_analysis/views/population/_by_ages.py:117-133 | for years `y0 <= y1` the window of columns is `y0 … y1 - 1`: `y1` is left out |
| PopulationByAges.WindowLabels | tutorial/webviz_wlf_tutorial/plugins/population_analysis/views/population/_by_ages.py:127-133 | the column window holds exactly the labels `y0` up to `y1 - 1` |
| PopulationByAges.Init | tutorial/webviz_wlf_tutorial/plugins/population_analysis/views/population/_by_ages.py:66-77 | the four tables keep exactly the rows of the female, male, female-share and male-share codes |
| PopulationByAges.WindowValues | tutorial/webviz_wlf_tutorial/plugins/population_analysis/views/population/_by_ages.py:134-148 | a window of values exists exactly when the country has a row of the code, else `IndexError` |
| PopulationByAges.WindowValuesOfSingleRow | tutorial/webviz_wlf_tutorial/plugins/population_analysis/views/population/_by_ages.py:134-148 | for a single row, the values are that row's present cells in the window, none missing |
| PopulationByAges.IndicatorTitle | tutorial/webviz_wlf_tutorial/plugins/population_analysis/views/population/_by_ages.py:191-198 | a graph title exists exactly when the table has a row of the code, else `IndexError` |
| PopulationByAges.IndicatorTitleName | tutorial/webviz_wlf_tutorial/plugins/population_analysis/views/population/_by_ages.py:191-198 | the title is the first matching row's indicator name with every ", female" removed, and the whole name when it has no such text |
| PopulationByAges.IndicatorTitleDropsFemale | tutorial/webviz_wlf_tutorial/plugins/population_analysis/views/population/_by_ages.py:191-198 | a name holding ", female" once, with no comma elsewhere, gives the name without that text as title |
| PopulationByAges.FemaleBandTitle | tutorial/webviz_wlf_tutorial/plugins/population_analysis/views/population/_by_ages.py:191-198 | "Population ages 00-04, female (% of female population)" gives the title "Population ages 00-04 (% of female population)" |
| PopulationByAges.AgeSeries | tutorial/webviz_wlf_tutorial/plugins/population_analysis/views/population/_by_ages.py:134-156 | an age line exists exactly when the country has the row; it is named country plus sex, coloured `i mod 10`, dotted, with the window's labels and values |
| PopulationByAges.AgeLines | tutorial/webviz_wlf_tutorial/plugins/population_analysis/views/population/_by_ages.py:127-190 | one line per country, all or nothing, the `i`-th for country `i` |
| PopulationByAges.AgeGroupElement | tutorial/webviz_wlf_tutorial/plugins/population_analysis/views/population/_by_ages.py:124-207 | an age band graph exists exactly when every country has both sexes' rows of the band; any failure is an `IndexError` |
| PopulationByAges.AgeGroupElementShape | tutorial/webviz_wlf_tutorial/plugins/population_analysis/views/population/_by_ages.py:124-207 | the graph has the female code as id and the indicator title as title, and shows the female lines followed by the male lines |
| PopulationByAges.AgeGroupLines | tutorial/webviz_wlf_tutorial/plugins/population_analysis/views/population/_by_ages.py:127-190 | country `i`'s female and male lines are at `i` and `n + i`, share colour `i mod 10` and are dotted |
| PopulationByAges.PairLabels | tutorial/webviz_wlf_tutorial/plugins/population_analysis/views/population/_by_ages.py:227-232 | the bar x labels are each year twice, first "…, female" then "…, male" |
| PopulationByAges.AgeBar | tutorial/webviz_wlf_tutorial/plugins/population_analysis/views/population/_by_ages.py:249-288 | a bar exists exactly when the country has both rows and the female code has a name; it uses the shared x labels and the band's title |
| PopulationByAges.AgeBarValues | tutorial/webviz_wlf_tutorial/plugins/population_analysis/views/population/_by_ages.py:249-282 | the bar values alternate female and male values year by year, for the shorter of the two |
| PopulationByAges.ModeTables | tutorial/webviz_wlf_tutorial/plugins/population_analysis/views/population/_by_ages.py:234-243 | absolute mode reads the absolute tables, otherwise the share tables |
| PopulationByAges.CountryBars | tutorial/webviz_wlf_tutorial/plugins/population_analysis/views/population/_by_ages.py:245-300 | a country has seventeen bars, the `k`-th for band `k`, all with the same x labels |
| PopulationByAges.CountryBarsFail | tutorial/webviz_wlf_tutorial/plugins/population_analysis/views/population/_by_ages.py:245-300 | building the bars fails only with `IndexError` |
| PopulationByAges.CountryBarsAt | tutorial/webviz_wlf_tutorial/plugins/population_analysis/views/population/_by_ages.py:245-300 | bar `k` is the band `k` bar |
| PopulationByAges.CountryElement | tutorial/webviz_wlf_tutorial/plugins/population_analysis/views/population/_by_ages.py:245-316 | a country graph has the country as id and title, stacks seventeen bars with the shared x labels, and shows a legend as told |
| PopulationByAges.CountryColumns | tutorial/webviz_wlf_tutorial/plugins/population_analysis/views/population/_by_ages.py:222-225 | `max_num_columns` for `n` countries is `ceil(n / 2)`, and below two exactly for at most two countries |
| PopulationByAges.ChunkKeepsOrder | tutorial/webviz_wlf_tutorial/plugins/population_analysis/views/population/_by_ages.py:209-219 | cutting elements into rows loses and reorders nothing |
| PopulationByAges.ChunkRowSizes | tutorial/webviz_wlf_tutorial/plugins/population_analysis/views/population/_by_ages.py:209-219 | every flushed row has between one and `cap` elements, and less than `cap` stay pending |
| PopulationByAges.ChunkLastFlushes | tutorial/webviz_wlf_tutorial/plugins/population_analysis/views/population/_by_ages.py:318-325 | flushing on the last index leaves nothing pending |
| PopulationByAges.ChunkFullRows | tutorial/webviz_wlf_tutorial/plugins/population_analysis/views/population/_by_ages.py:209-219 | when the last-index test never fires, only full rows of four are flushed and `n mod 4` stay pending |
| PopulationByAges.Arrange | tutorial/webviz_wlf_tutorial/plugins/population_analysis/views/population/_by_ages.py:106-327 | fewer than two years is an `IndexError`; no countries in country mode is a `ZeroDivisionError`; any other failure is an `IndexError` |
| PopulationByAges.LaidOut | tutorial/webviz_wlf_tutorial/plugins/population_analysis/views/population/_by_ages.py:119-219 | laying out fails only with the error of some element |
| PopulationByAges.AgeGroupLayout | tutorial/webviz_wlf_tutorial/plugins/population_analysis/views/population/_by_ages.py:119-219 | the age-group layout fails only with `IndexError` |
| PopulationByAges.CountryLayout | tutorial/webviz_wlf_tutorial/plugins/population_analysis/views/population/_by_ages.py:221-325 | the country layout fails only with `IndexError` |
| PopulationByAges.LayoutAsWritten | tutorial/webviz_wlf_tutorial/plugins/population_analysis/views/population/_by_ages.py:211-214 | the as-written layout equals the corrected one in country mode and for a female table of seventeen rows; with a longer female table, age-group mode gives four rows of sixteen graphs |
| PopulationByAges.Layout | tutorial/webviz_wlf_tutorial/plugins/population_analysis/views/population/_by_ages.py:106-327 | the corrected layout needs two years; age-group mode gives five rows of all seventeen graphs; country mode gives one graph per country in rows of one to `max_num_columns`, every row but the last full; failures are those of `Arrange` |
| PopulationByAges.AgeGroupCounts | tutorial/webviz_wlf_tutorial/plugins/population_analysis/views/population/_by_ages.py:119-219 | seventeen band graphs make five rows when the last band closes its row, and four full rows of sixteen when no index closes a row early |
| PopulationByAges.CountryCounts | tutorial/webviz_wlf_tutorial/plugins/population_analysis/views/population/_by_ages.py:221-325 | country mode shows every country's graph in rows of one to `max_num_columns`, as few rows as that allows |
| PopulationByAges.LaidOutCounts | tutorial/webviz_wlf_tutorial/plugins/population_analysis/views/population/_by_ages.py:318-325 | flushing on the last index, the rows hold every element, one to `cap` per row, every row but the last full |
| PopulationByAges.ChunkRowCount | tutorial/webviz_wlf_tutorial/plugins/population_analysis/views/population/_by_ages.py:318-325 | flushing on the last index, `n` elements make `ceil(n / cap)` rows |
| PopulationByAges.ChunkClosedFull | tutorial/webviz_wlf_tutorial/plugins/population_analysis/views/population/_by_ages.py:318-325 | when no index closes a row early, every flushed row holds `cap` elements |
| PopulationByAges.AdjustPlots | tutorial/webviz_wlf_tutorial/plugins/population_analysis/views/population/_by_ages.py:106-327 | the loop computes the corrected layout |
| PopulationByAges.AdjustCountries | tutorial/webviz_wlf_tutorial/plugins/population_analysis/views/population/_by_ages.py:221-325 | the country loop computes the country layout with `ceil(n / 2)` columns |
| PopulationByAges.LayOut | tutorial/webviz_wlf_tutorial/plugins/population_analysis/views/population/_by_ages.py:114-219 | the flushing loop computes the row chunking of the built elements |
| PopulationByAges.PairXValues | tutorial/webviz_wlf_tutorial/plugins/population_analysis/views/population/_by_ages.py:227-232 | the x-value loop computes the paired labels |
| PopulationByAges.AgeCodePairsAt | tutorial/webviz_wlf_tutorial/plugins/population_analysis/views/population/_by_ages.py:120-122 | the band pairs are the female and male codes of the same band, seventeen of them |
| PopulationByAges.LaidOutRows | tutorial/webviz_wlf_tutorial/plugins/population_analysis/views/population/_by_ages.py:119-219 | a layout is the chunking of all built elements |
| PopulationByAges.LaidOutAll | tutorial/webviz_wlf_tutorial/plugins/population_analysis/views/population/_by_ages.py:318-325 | with a flush on the last index, rows hold one to `cap` elements and flatten to every element in order |
| PopulationByAges.AgeGroupLink | tutorial/webviz_wlf_tutorial/plugins/population_analysis/views/population/_by_ages.py:119-219 | age-group mode lays out the band graphs four to a row |
| PopulationByAges.AgeGroupLayoutLink | tutorial/webviz_wlf_tutorial/plugins/population_analysis/views/population/_by_ages.py:119-219 | the corrected layout is the band graphs four to a row, flushed on the last band |
| PopulationByAges.CountryLink | tutorial/webviz_wlf_tutorial/plugins/population_analysis/views/population/_by_ages.py:221-325 | country mode lays out the country graphs `ceil(n / 2)` to a row, with a legend only below two columns |
| PopulationByAges.AgeGroupFigures | tutorial/webviz_wlf_tutorial/plugins/population_analysis/views/population/_by_ages.py:119-219 | age-group mode ignores the value mode; its rows hold one to four graphs which, in order, are the graphs of all seventeen bands |
| PopulationByAges.AgeGroupLayoutSucceeds | tutorial/webviz_wlf_tutorial/plugins/population_analysis/views/population/_by_ages.py:106-219 | age-group mode succeeds exactly when two years are selected and every country has every band's rows |
| PopulationByAges.CountryFigures | tutorial/webviz_wlf_tutorial/plugins/population_analysis/views/population/_by_ages.py:221-325 | country mode's rows, in order, hold one graph per country with that country's title, seventeen bars with the shared x labels, and a legend exactly for at most two countries |
| PopulationByAges.CountryStepFigures | tutorial/webviz_wlf_tutorial/plugins/population_analysis/views/population/_by_ages.py:221-325 | the laid-out country graphs are one per country in order, each with its title, legend rule and seventeen bars over the shared labels |
| PopulationByAges.AgeSeriesYears | tutorial/webviz_wlf_tutorial/plugins/population_analysis/views/population/_by_ages.py:127-148 | with full year columns, a line's x labels are the years from `y0` up to but not including `y1` |
| PopulationByAges.NoEmptyColumnDropped | tutorial/webviz_wlf_tutorial/plugins/population_analysis/views/population/_by_ages.py:128-133 | with no empty column, `dropna` keeps all labels |
| PopulationByAges.AsWrittenDropsLastBand | tutorial/webviz_wlf_tutorial/plugins/population_analysis/views/population/_by_ages.py:211-214 | as written, a female table of more than seventeen rows leaves four full rows: the 80+ band graph is never shown |
| PopulationByAges.LayoutShowsLastBand | tutorial/webviz_wlf_tutorial/plugins/population_analysis/views/population/_by_ages.py:211-214 | corrected, the layout has five rows and shows all seventeen band graphs, the 80+ band last |

## Left out

- Dash wiring is not part of this model: the callbacks' `Input`/`Output` ids, `register_component_unique_id`, element ids and `tour_steps`. Component ids are symbolic.
- Reading the CSV is a parameter: the outcome, a table or one of the five exception kinds, is given to the constructors.
- Graph heights (`"30vh"`, `graph_height`) and other floats are left out. `max_num_columns` is modelled as its integer value `ceil(n / 2)`; for `n >= 1` the float computation gives exactly that.
- The view settings groups (values mode, view-by mode, their radio items) are not part of this model. Their values are the string parameters `values`, `viewBy` and `mode`.
- Store `StorageType.SESSION` is left out; stores are recorded by id only.
- The registered views are recorded by kind, group and table. The objects the views build from that table are each view module's `Init`.
- Python.ParseInt: accepts only non-empty ASCII digit strings, which is weaker than `int()`. `int()` also takes signs, surrounding whitespace and underscores. Year labels are digit strings, so that does not arise here.
- SharedFilter.Marks: the slider's `marks` dictionary is modelled as the list of its (label, value) entries in insertion order.
- PopulationByAges.CountryLayout: the x labels are computed once, not once per country as in the loop. They depend on no loop variable, so the result is the same.
- Colours are indices into the ten-entry plotly default palette, not the palette's RGB strings.
- The numeric cell type is abstract: no value is compared or computed on, so its representation is irrelevant.
- Indicator names are only used as text. A numeric name cell is shown as an empty title instead of Python's `str` of the number.

## Findings

| source | as written | input that shows it | evidently intended | confidence | as-written member | corrected member |
|---|---|---|---|---|---|---|
| tutorial/webviz_wlf_tutorial/plugins/population_analysis/views/population/_by_ages.py:211-214 | age-group mode flushes a row when `index == len(self.df_pop_ages_female) - 1`. That is the row count of the female table, not the number of age bands. | a female table of two countries, 34 rows: after 16 bands four full rows are flushed, and the 80+ band graph is appended but never flushed | flush on the last age band, `index == 16` | not executed | PopulationByAges.AsWrittenDropsLastBand | PopulationByAges.LayoutShowsLastBand |
