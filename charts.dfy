/** The line series every chart view builds, one per selected country and variant,
    and the figure that holds them. */
module Charts {
  import opened Python
  import opened Tables

  /** `plotly.colors.DEFAULT_PLOTLY_COLORS` holds ten colours; a series' colour is an index into it. */
  const PaletteSize: nat := 10

  /** The plotly dash styles used: "dot" and "dash". */
  datatype Dash = Dot | Dashed

  /** One trace: x labels, y cells, the legend name, the colour index and the dash style,
      each `None` where the source's trace has no such entry. */
  datatype Series<V> = Series(x: seq<string>, y: seq<Cell<V>>, name: string, color: Option<nat>, dash: Option<Dash>)

  /** A figure: its traces, its title and the x-axis range of its layout. */
  datatype Figure<V> = Figure(data: seq<Series<V>>, title: string, xRange: seq<int>)

  /** x of a series: `df.dropna(axis="columns", how="all").columns[4:]`. */
  function XOf<V>(t: Table<V>): (x: seq<string>)
    ensures |t.rows| == 0 ==> x == []
  {
    From(DropEmptyColumns(t).columns, FirstYearColumn)
  }

  /** y of a series: `df.iloc[:, 4:].dropna(axis="columns", how="all").values.tolist()[0]`;
      an `IndexError` when the frame has no row. */
  function YOf<V>(t: Table<V>): (y: Result<seq<Cell<V>>>)
    ensures y.Success? <==> |t.rows| > 0
    ensures y.Failure? ==> y.error == IndexError
  {
    FirstRow(DropEmptyColumns(ILocColumns(t, FirstYearColumn, |t.columns|)))
  }

  /** The row's four label cells hold values. */
  predicate Labelled<V>(row: seq<Cell<V>>) {
    |row| >= 4 && forall j :: 0 <= j < 4 ==> row[j] != Missing
  }

  /** Each of the four label columns holds a value in some row. */
  predicate LabelsPresent<V>(t: Table<V>) {
    |t.columns| >= 4 && forall j :: 0 <= j < 4 ==> HasValue(t.rows, j)
  }

  /** Which of the cells hold a value. */
  function PresentMask<V>(s: seq<Cell<V>>): (m: seq<bool>)
    ensures |m| == |s| && forall j :: 0 <= j < |s| ==> (m[j] <==> s[j] != Missing)
  {
    seq(|s|, j requires 0 <= j < |s| => s[j] != Missing)
  }

  /** In a frame with a single row, a column is kept exactly where that row holds a value. */
  lemma SingleRowMask<V>(t: Table<V>)
    requires |t.rows| == 1
    ensures Mask(t) == PresentMask(t.rows[0])
  {
    var row := t.rows[0];
    forall j | 0 <= j < |t.columns|
      ensures Mask(t)[j] == (row[j] != Missing)
    {
      if row[j] != Missing {
        assert HasValue(t.rows, j);
      }
    }
  }

  /** When no label column is empty, x is the year labels of the non-empty year columns. */
  lemma XOfYears<V>(t: Table<V>)
    requires LabelsPresent(t)
    ensures XOf(t) == Compress(t.columns[4..], Mask(t)[4..])
  {
    var m := Mask(t);
    assert t.columns == t.columns[..4] + t.columns[4..];
    assert m == m[..4] + m[4..];
    CompressAppend(t.columns[..4], m[..4], t.columns[4..], m[4..]);
    CompressAllTrue(t.columns[..4], m[..4]);
  }

  /** y is the first row's cells in the non-empty year columns. */
  lemma YOfYears<V>(t: Table<V>)
    requires |t.rows| > 0 && |t.columns| >= 4
    ensures YOf(t) == Success(Compress(t.rows[0][4..], Mask(t)[4..]))
  {
    var s := ILocColumns(t, FirstYearColumn, |t.columns|);
    MaskOfSlice(t, FirstYearColumn, |t.columns|);
    assert Mask(s) == Mask(t)[4..];
    assert s.rows[0] == t.rows[0][4..];
    assert DropEmptyColumns(s).rows[0] == Compress(s.rows[0], Mask(s));
  }

  /** With the label columns filled, x and y have the same length. */
  lemma {:induction false} SeriesAligned<V>(t: Table<V>)
    requires LabelsPresent(t) && |t.rows| > 0
    ensures YOf(t).Success? && |YOf(t).value| == |XOf(t)|
  {
    XOfYears(t);
    YOfYears(t);
  }

  /** A frame with a single row whose label cells are filled: x is the labels of the year columns where
      that row has a value, y is those values in the same order, and y has no empty cell. */
  lemma {:induction false} SingleRowSeries<V>(t: Table<V>)
    requires |t.rows| == 1 && |t.columns| >= 4
    requires forall j :: 0 <= j < 4 ==> t.rows[0][j] != Missing
    ensures XOf(t) == Compress(t.columns[4..], PresentMask(t.rows[0][4..]))
    ensures YOf(t) == Success(Compress(t.rows[0][4..], PresentMask(t.rows[0][4..])))
    ensures Missing !in YOf(t).value && |YOf(t).value| == |XOf(t)|
  {
    var row := t.rows[0];
    SingleRowMask(t);
    assert Mask(t)[4..] == PresentMask(row[4..]);
    XOfYears(t);
    YOfYears(t);
    CompressPresent(row[4..], PresentMask(row[4..]));
  }

  /** y taken from some of the rows x was taken from is no longer than x. */
  lemma {:induction false} SubsetSeriesShorter<V>(whole: Table<V>, part: Table<V>)
    requires LabelsPresent(whole) && |part.rows| > 0
    requires part.columns == whole.columns
    requires forall i :: 0 <= i < |part.rows| ==> part.rows[i] in whole.rows
    ensures YOf(part).Success? && |YOf(part).value| <= |XOf(whole)|
  {
    var m, m' := Mask(whole), Mask(part);
    forall j | 0 <= j < |m'| && m'[j]
      ensures m[j]
    {
      var i :| 0 <= i < |part.rows| && j < |part.rows[i]| && part.rows[i][j] != Missing;
      var k :| 0 <= k < |whole.rows| && whole.rows[k] == part.rows[i];
      assert whole.rows[k][j] != Missing;
    }
    CountMonotone(m'[4..], m[4..]);
    XOfYears(whole);
    YOfYears(part);
  }

  // ---------------------------------------------------------------------------
  // One series per country

  /** How a chart builds a series for a country: which indicator code selects the y row (`None`: the
      table's only code), whether that code also narrows the rows x is taken from, the suffix appended to
      the country's name, whether the trace carries the country's colour, and its dash style. */
  datatype Variant = Variant(code: Option<string>, codeFiltersX: bool, suffix: string, colored: bool, dash: Option<Dash>)

  predicate RowMatches<V>(row: seq<Cell<V>>, country: string, code: Option<string>) {
    Selects(row, CountryNameColumn, Equals(country))
    && (code.None? || Selects(row, IndicatorCodeColumn, Equals(code.value)))
  }

  /** `df.loc[df["Country Name"] == country]`: the table's rows of the country, all of them, under the same
      columns. */
  function CountryRows<V>(t: Table<V>, country: string): (r: Table<V>)
    ensures r.columns == t.columns
    ensures forall i :: 0 <= i < |r.rows| ==> r.rows[i] in t.rows && RowMatches(r.rows[i], country, None)
    ensures forall row <- t.rows :: RowMatches(row, country, None) ==> row in r.rows
    ensures |r.rows| > 0 <==> HasRow(t, country, None)
  {
    CountryFilterNonEmpty(t, country);
    Where(t, CountryNameColumn, Equals(country))
  }

  lemma CountryFilterNonEmpty<V>(t: Table<V>, country: string)
    ensures |Where(t, CountryNameColumn, Equals(country)).rows| > 0 <==> HasRow(t, country, None)
  {
    var r := Where(t, CountryNameColumn, Equals(country));
    if HasRow(t, country, None) {
      var row :| row in t.rows && RowMatches(row, country, None);
      assert row in r.rows;
    }
    if |r.rows| > 0 {
      assert r.rows[0] in r.rows;
    }
  }

  /** The table has a row for the country (and the code, if one is given). */
  ghost predicate HasRow<V>(t: Table<V>, country: string, code: Option<string>) {
    exists row <- t.rows :: RowMatches(row, country, code)
  }

  /** Filtering the table on the indicator code keeps every row of a code that passes the filter. */
  lemma HasRowWhere<V>(t: Table<V>, test: Test, country: string, code: string)
    requires Passes<V>(Text(code), test)
    ensures HasRow(Where(t, IndicatorCodeColumn, test), country, Some(code)) <==> HasRow(t, country, Some(code))
  {
    var r := Where(t, IndicatorCodeColumn, test);
    if HasRow(t, country, Some(code)) {
      var row :| row in t.rows && RowMatches(row, country, Some(code));
      assert Selects(row, IndicatorCodeColumn, test);
      assert row in r.rows;
    }
  }

  /** In a table holding one indicator code, a row for the country is a row for that code. */
  lemma HasRowOnlyCode<V>(t: Table<V>, country: string, code: string)
    ensures HasRow(Where(t, IndicatorCodeColumn, Equals(code)), country, None) <==> HasRow(t, country, Some(code))
  {
    var r := Where(t, IndicatorCodeColumn, Equals(code));
    if HasRow(t, country, Some(code)) {
      var row :| row in t.rows && RowMatches(row, country, Some(code));
      assert row in r.rows;
    }
    if HasRow(r, country, None) {
      var row :| row in r.rows && RowMatches(row, country, None);
      assert RowMatches(row, country, Some(code));
    }
  }

  lemma MatchingRowKept<V>(t: Table<V>, country: string, code: Option<string>, r: Table<V>)
    requires r == if code.Some? then Where(CountryRows(t, country), IndicatorCodeColumn, Equals(code.value))
                  else CountryRows(t, country)
    ensures forall i :: 0 <= i < |r.rows| ==> r.rows[i] in t.rows && RowMatches(r.rows[i], country, code)
    ensures |r.rows| > 0 <==> HasRow(t, country, code)
  {
    var c := CountryRows(t, country);
    assert forall row <- r.rows :: row in t.rows && RowMatches(row, country, code);
    if HasRow(t, country, code) {
      var row :| row in t.rows && RowMatches(row, country, code);
      assert row in c.rows;
      assert row in r.rows;
    }
    if |r.rows| > 0 {
      assert r.rows[0] in t.rows && RowMatches(r.rows[0], country, code);
    }
  }

  /** The rows y is taken from: the country's rows, narrowed to the variant's code if it has one. */
  function VariantRows<V>(t: Table<V>, v: Variant, country: string): (r: Table<V>)
    ensures r.columns == t.columns
    ensures forall i :: 0 <= i < |r.rows| ==> r.rows[i] in t.rows && RowMatches(r.rows[i], country, v.code)
    ensures |r.rows| > 0 <==> HasRow(t, country, v.code)
  {
    var c := CountryRows(t, country);
    var r := if v.code.Some? then Where(c, IndicatorCodeColumn, Equals(v.code.value)) else c;
    MatchingRowKept(t, country, v.code, r);
    r
  }

  /** `df.loc[df["Country Name"] == country].loc[df["Indicator Code"] == code]`. */
  function CodeRows<V>(t: Table<V>, country: string, code: string): (r: Table<V>)
    ensures r.columns == t.columns
    ensures forall i :: 0 <= i < |r.rows| ==> r.rows[i] in t.rows && RowMatches(r.rows[i], country, Some(code))
    ensures |r.rows| > 0 <==> HasRow(t, country, Some(code))
  {
    var r := Where(CountryRows(t, country), IndicatorCodeColumn, Equals(code));
    MatchingRowKept(t, country, Some(code), r);
    r
  }

  /** The rows x is taken from: the country's rows, narrowed to the variant's code when the code filters x. */
  function XRows<V>(t: Table<V>, v: Variant, country: string): (r: Table<V>)
    ensures r.columns == t.columns
    ensures forall i :: 0 <= i < |r.rows| ==>
      r.rows[i] in t.rows && RowMatches(r.rows[i], country, if v.codeFiltersX then v.code else None)
    ensures |r.rows| > 0 <==> HasRow(t, country, if v.codeFiltersX then v.code else None)
  {
    if v.codeFiltersX then VariantRows(t, v, country) else CountryRows(t, country)
  }

  /** The series of the `i`-th selected country: it exists exactly when the table has a row for that
      country (and code), and is named, coloured and dashed as the variant says. */
  function BuildSeries<V>(t: Table<V>, v: Variant, i: nat, country: string): (r: Result<Series<V>>)
    ensures r.Success? <==> HasRow(t, country, v.code)
    ensures r.Failure? ==> r.error == IndexError
    ensures r.Success? ==> r.value.name == country + v.suffix && r.value.dash == v.dash
    ensures r.Success? ==> r.value.color == if v.colored then Some(i % PaletteSize) else None
  {
    var x := XOf(XRows(t, v, country));
    var y :- YOf(VariantRows(t, v, country));
    Success(Series(x, y, country + v.suffix, if v.colored then Some(i % PaletteSize) else None, v.dash))
  }

  /** A built series takes x from the non-empty year columns of the rows `XRows` selects and y from the first
      row `VariantRows` selects; when those rows carry their labels, y is no longer than x. */
  lemma SeriesNoLongerThanX<V>(t: Table<V>, v: Variant, i: nat, country: string, s: Series<V>)
    requires BuildSeries(t, v, i, country) == Success(s)
    requires LabelsPresent(XRows(t, v, country))
    ensures |s.y| <= |s.x|
  {
    var whole, part := XRows(t, v, country), VariantRows(t, v, country);
    forall k | 0 <= k < |part.rows|
      ensures part.rows[k] in whole.rows
    {
      var row := part.rows[k];
      assert row in t.rows && RowMatches(row, country, v.code);
      assert row in CountryRows(t, country).rows;
    }
    SubsetSeriesShorter(whole, part);
  }

  /** When the country has a single row (with its labels) among the rows x is taken from, the series is that
      row: x is the year labels where it holds a value, y is those values in order, and y has no gap. */
  lemma SeriesOfSingleRow<V>(t: Table<V>, v: Variant, i: nat, country: string, s: Series<V>)
    requires BuildSeries(t, v, i, country) == Success(s)
    requires |XRows(t, v, country).rows| == 1 && Labelled(XRows(t, v, country).rows[0])
    ensures var row := XRows(t, v, country).rows[0];
      s.x == Compress(t.columns[4..], PresentMask(row[4..])) &&
      s.y == Compress(row[4..], PresentMask(row[4..]))
    ensures Missing !in s.y && |s.x| == |s.y|
  {
    var whole, part := XRows(t, v, country), VariantRows(t, v, country);
    if !v.codeFiltersX {
      var c := CountryRows(t, country);
      assert whole == c;
      var row := part.rows[0];
      assert row in t.rows && RowMatches(row, country, v.code);
      assert row in c.rows;
      assert |part.rows| <= |c.rows|;
      assert part.rows == c.rows;
    }
    assert part == whole;
    SingleRowSeries(whole);
  }

  /** When the variant's code also selects the rows x comes from, x and y come from the same rows: once those
      rows carry their labels, y has exactly one value per x label. */
  lemma FilteredSeriesAligned<V>(t: Table<V>, v: Variant, i: nat, country: string, s: Series<V>)
    requires BuildSeries(t, v, i, country) == Success(s)
    requires v.codeFiltersX && LabelsPresent(VariantRows(t, v, country))
    ensures |s.y| == |s.x|
  {
    SeriesAligned(VariantRows(t, v, country));
  }

  /** `[{...} for i, x in enumerate(countries)]`: one series per selected country, in order, or the
      `IndexError` of the first country without a matching row. */
  function SeriesPerCountry<V>(t: Table<V>, v: Variant, countries: seq<string>): (r: Result<seq<Series<V>>>)
  {
    MapEnumerate((i: nat, c: string) => BuildSeries(t, v, i, c), countries)
  }

  /** The series list exists exactly when each selected country has a matching row; its `i`-th entry is
      the `i`-th country's series, and a missing row surfaces as an `IndexError`. */
  lemma SeriesPerCountryExists<V>(t: Table<V>, v: Variant, countries: seq<string>)
    ensures SeriesPerCountry(t, v, countries).Success? <==>
      forall c <- countries :: HasRow(t, c, v.code)
    ensures SeriesPerCountry(t, v, countries).Failure? ==> SeriesPerCountry(t, v, countries).error == IndexError
    ensures SeriesPerCountry(t, v, countries).Success? ==>
      |SeriesPerCountry(t, v, countries).value| == |countries| &&
      forall i :: 0 <= i < |countries| ==>
        BuildSeries(t, v, i, countries[i]).Success? &&
        SeriesPerCountry(t, v, countries).value[i] == BuildSeries(t, v, i, countries[i]).value
  {
    var f := (i: nat, c: string) => BuildSeries(t, v, i, c);
    MapEnumerateAt(f, countries);
    if SeriesPerCountry(t, v, countries).Success? {
      forall c <- countries
        ensures HasRow(t, c, v.code)
      {
        var i :| 0 <= i < |countries| && countries[i] == c;
        assert f(i, countries[i]).Success?;
      }
    } else {
      var i :| 0 <= i < |countries| && f(i, countries[i]) == Failure(SeriesPerCountry(t, v, countries).error);
      assert countries[i] in countries;
    }
  }

  // ---------------------------------------------------------------------------
  // A line chart: consecutive blocks of series, one block per variant

  /** `[...] + [...] + ...`: the series of every country for the first variant, then for the second, and so on. */
  function Blocks<V>(t: Table<V>, vs: seq<Variant>, countries: seq<string>): (r: Result<seq<Series<V>>>)
  {
    MapBlocks((v: Variant, i: nat, c: string) => BuildSeries(t, v, i, c), vs, countries)
  }

  /** The figure shows, at position `i` of block `k`, the series variant `vs[k]` builds for country `i`,
      and nothing else. */
  ghost predicate Shows<V>(data: seq<Series<V>>, t: Table<V>, vs: seq<Variant>, countries: seq<string>) {
    |data| == BlockStart(|vs|, |countries|) &&
    forall k, i :: 0 <= k < |vs| && 0 <= i < |countries| ==> ShowsEntry(data, t, vs, countries, k, i)
  }

  /** Position `i` of block `k` holds the series variant `vs[k]` builds for the `i`-th country. */
  ghost predicate ShowsEntry<V>(data: seq<Series<V>>, t: Table<V>, vs: seq<Variant>, countries: seq<string>, k: nat, i: nat) {
    k < |vs| && i < |countries| && BlockStart(k, |countries|) + i < |data| &&
    BuildSeries(t, vs[k], i, countries[i]) == Success(data[BlockStart(k, |countries|) + i])
  }

  /** Every variant has a row for every country, by position or by membership. */
  lemma {:induction false} RowsForAll<V>(t: Table<V>, vs: seq<Variant>, countries: seq<string>)
    ensures (forall k, i :: 0 <= k < |vs| && 0 <= i < |countries| ==> HasRow(t, countries[i], vs[k].code))
        <==> (forall v <- vs, c <- countries :: HasRow(t, c, v.code))
  {
    if forall k, i :: 0 <= k < |vs| && 0 <= i < |countries| ==> HasRow(t, countries[i], vs[k].code) {
      forall v <- vs, c <- countries
        ensures HasRow(t, c, v.code)
      {
        var k :| 0 <= k < |vs| && vs[k] == v;
        var i :| 0 <= i < |countries| && countries[i] == c;
      }
    }
    if forall v <- vs, c <- countries :: HasRow(t, c, v.code) {
      forall k, i | 0 <= k < |vs| && 0 <= i < |countries|
        ensures HasRow(t, countries[i], vs[k].code)
      {
        assert vs[k] in vs && countries[i] in countries;
      }
    }
  }

  /** The blocks are built exactly when every variant finds a row for every country; the exception of a
      missing row is an `IndexError`. */
  lemma BlocksSucceedAt<V>(t: Table<V>, vs: seq<Variant>, countries: seq<string>)
    ensures Blocks(t, vs, countries).Success? <==>
      forall k, i :: 0 <= k < |vs| && 0 <= i < |countries| ==> HasRow(t, countries[i], vs[k].code)
    ensures Blocks(t, vs, countries).Failure? ==> Blocks(t, vs, countries).error == IndexError
  {
    var f := (v: Variant, i: nat, c: string) => BuildSeries(t, v, i, c);
    MapBlocksSucceed(f, vs, countries);
    forall k, i | 0 <= k < |vs| && 0 <= i < |countries|
      ensures f(vs[k], i, countries[i]).Success? <==> HasRow(t, countries[i], vs[k].code)
    {
      assert f(vs[k], i, countries[i]) == BuildSeries(t, vs[k], i, countries[i]);
    }
    if Blocks(t, vs, countries).Failure? {
      var k, i :| 0 <= k < |vs| && 0 <= i < |countries| && f(vs[k], i, countries[i]) == Failure(Blocks(t, vs, countries).error);
      assert f(vs[k], i, countries[i]) == BuildSeries(t, vs[k], i, countries[i]);
    }
  }

  /** The blocks are built exactly when every variant finds a row for every country. */
  lemma BlocksSucceed<V>(t: Table<V>, vs: seq<Variant>, countries: seq<string>)
    ensures Blocks(t, vs, countries).Success? <==> forall v <- vs, c <- countries :: HasRow(t, c, v.code)
    ensures Blocks(t, vs, countries).Failure? ==> Blocks(t, vs, countries).error == IndexError
  {
    BlocksSucceedAt(t, vs, countries);
    RowsForAll(t, vs, countries);
  }

  /** Entry `i` of block `k` of built blocks is the series variant `vs[k]` builds for country `i`. */
  lemma BlocksEntry<V>(t: Table<V>, vs: seq<Variant>, countries: seq<string>, data: seq<Series<V>>, k: nat, i: nat)
    requires Blocks(t, vs, countries) == Success(data) && k < |vs| && i < |countries|
    ensures ShowsEntry(data, t, vs, countries, k, i)
  {
    var f := (v: Variant, i: nat, c: string) => BuildSeries(t, v, i, c);
    MapBlocksEntry(f, vs, countries, k, i);
    assert f(vs[k], i, countries[i]) == BuildSeries(t, vs[k], i, countries[i]);
  }

  /** Built blocks show, at each position, the series of that position's variant and country. */
  lemma BlocksShow<V>(t: Table<V>, vs: seq<Variant>, countries: seq<string>, data: seq<Series<V>>)
    requires Blocks(t, vs, countries) == Success(data)
    ensures Shows(data, t, vs, countries)
  {
    var f := (v: Variant, i: nat, c: string) => BuildSeries(t, v, i, c);
    MapBlocksLength(f, vs, countries);
    forall k, i | 0 <= k < |vs| && 0 <= i < |countries|
      ensures ShowsEntry(data, t, vs, countries, k, i)
    {
      BlocksEntry(t, vs, countries, data, k, i);
    }
  }

  /** The series a chart shows at position `pos`, entry `i` of block `k`. */
  lemma ShowsSeries<V>(data: seq<Series<V>>, t: Table<V>, vs: seq<Variant>, countries: seq<string>, k: nat, i: nat, pos: nat)
    requires ShowsEntry(data, t, vs, countries, k, i)
    requires pos == BlockStart(k, |countries|) + i
    ensures pos < |data| && k < |vs| && i < |countries|
    ensures BuildSeries(t, vs[k], i, countries[i]) == Success(data[pos])
  {
  }

  lemma ShowsEntryAt<V>(data: seq<Series<V>>, t: Table<V>, vs: seq<Variant>, countries: seq<string>, k: nat, i: nat)
    requires Shows(data, t, vs, countries) && k < |vs| && i < |countries|
    ensures ShowsEntry(data, t, vs, countries, k, i)
  {
  }

  /** A chart with the given title and x-axis range, or the `IndexError` its series raise. */
  function LineChart<V>(t: Table<V>, vs: seq<Variant>, countries: seq<string>, title: string, years: seq<int>): (r: Result<Figure<V>>)
    ensures r.Success? <==> forall v <- vs, c <- countries :: HasRow(t, c, v.code)
    ensures r.Failure? ==> r.error == IndexError
    ensures r.Success? ==> r.value.title == title && r.value.xRange == years
  {
    BlocksSucceed(t, vs, countries);
    var data :- Blocks(t, vs, countries);
    Success(Figure(data, title, years))
  }

  /** A chart built holds, block by block, the series of its variants. */
  lemma LineChartShows<V>(t: Table<V>, vs: seq<Variant>, countries: seq<string>, title: string, years: seq<int>)
    requires LineChart(t, vs, countries, title, years).Success?
    ensures Shows(LineChart(t, vs, countries, title, years).value.data, t, vs, countries)
  {
    BlocksShow(t, vs, countries, Blocks(t, vs, countries).value);
  }

  /** The legend name, colour and dash style variant `v` gives the series of the `i`-th country. */
  predicate Styled<V>(s: Series<V>, v: Variant, i: nat, country: string) {
    s.name == country + v.suffix && s.dash == v.dash &&
    s.color == if v.colored then Some(i % PaletteSize) else None
  }

  /** Entry `i` of block `k` of a chart (at `pos`) is styled by variant `vs[k]` for the `i`-th country. */
  lemma ShowsAt<V>(data: seq<Series<V>>, t: Table<V>, vs: seq<Variant>, countries: seq<string>, k: nat, i: nat, pos: nat)
    requires Shows(data, t, vs, countries) && k < |vs| && i < |countries|
    requires pos == BlockStart(k, |countries|) + i
    ensures pos < |data| && Styled(data[pos], vs[k], i, countries[i])
  {
    ShowsEntryAt(data, t, vs, countries, k, i);
    ShowsSeries(data, t, vs, countries, k, i, pos);
  }

  /** The series of a table holding a single indicator: named by the country alone, no colour, no dash. */
  const CountryLine: Variant := Variant(None, false, "", false, None)

  /** Series `i` of a chart of `CountryLine` series is the `i`-th country's: named by the country alone and,
      when the country has a single row (with its labels), holding exactly that row's values. */
  lemma CountryLineAt<V>(t: Table<V>, countries: seq<string>, data: seq<Series<V>>, i: nat)
    requires Shows(data, t, [CountryLine], countries) && i < |countries|
    ensures i < |data| && data[i].name == countries[i] && data[i].color == None && data[i].dash == None
    ensures |CountryRows(t, countries[i]).rows| == 1 && Labelled(CountryRows(t, countries[i]).rows[0]) ==>
      |data[i].x| == |data[i].y| && Missing !in data[i].y
  {
    ShowsEntryAt(data, t, [CountryLine], countries, 0, i);
    ShowsSeries(data, t, [CountryLine], countries, 0, i, i);
    if |CountryRows(t, countries[i]).rows| == 1 && Labelled(CountryRows(t, countries[i]).rows[0]) {
      SeriesOfSingleRow(t, CountryLine, i, countries[i], data[i]);
    }
  }

  /** A chart of `CountryLine` series has exactly one series per country, in order, named by the country. */
  lemma CountryLines<V>(t: Table<V>, countries: seq<string>, data: seq<Series<V>>)
    requires Shows(data, t, [CountryLine], countries)
    ensures |data| == |countries|
    ensures forall i :: 0 <= i < |countries| ==> data[i].name == countries[i] && data[i].color == None && data[i].dash == None
    ensures forall i :: (0 <= i < |countries| && |CountryRows(t, countries[i]).rows| == 1 &&
      Labelled(CountryRows(t, countries[i]).rows[0])) ==> |data[i].x| == |data[i].y| && Missing !in data[i].y
  {
    BlockStarts(|countries|);
    forall i | 0 <= i < |countries|
      ensures data[i].name == countries[i] && data[i].color == None && data[i].dash == None
      ensures |CountryRows(t, countries[i]).rows| == 1 && Labelled(CountryRows(t, countries[i]).rows[0]) ==>
        |data[i].x| == |data[i].y| && Missing !in data[i].y
    {
      CountryLineAt(t, countries, data, i);
    }
  }

  /** A chart of one indicator has a series for every country exactly when the dataset has a row of that
      indicator for every country. */
  lemma SingleCodeChart<V>(df: Table<V>, code: string, countries: seq<string>, title: string, years: seq<int>)
    ensures LineChart(Where(df, IndicatorCodeColumn, Equals(code)), [CountryLine], countries, title, years).Success?
        <==> (forall c <- countries :: HasRow(df, c, Some(code)))
  {
    forall c <- countries
      ensures HasRow(Where(df, IndicatorCodeColumn, Equals(code)), c, None) <==> HasRow(df, c, Some(code))
    {
      HasRowOnlyCode(df, c, code);
    }
  }

  /** A chart whose variants each pick a code the table filter keeps has all its series exactly when the
      dataset has a row of each variant's code for every country. */
  lemma VariantChart<V>(df: Table<V>, test: Test, vs: seq<Variant>, countries: seq<string>, title: string, years: seq<int>)
    requires forall v <- vs :: v.code.Some? && Passes<V>(Text(v.code.value), test)
    ensures LineChart(Where(df, IndicatorCodeColumn, test), vs, countries, title, years).Success?
        <==> (forall v <- vs, c <- countries :: HasRow(df, c, v.code))
  {
    forall v <- vs, c <- countries
      ensures HasRow(Where(df, IndicatorCodeColumn, test), c, v.code) <==> HasRow(df, c, v.code)
    {
      HasRowWhere(df, test, c, v.code.value);
    }
  }

  /** Entry `i` of block `k` (at `pos`) is no longer in y than in x when the rows its x comes from carry their labels. */
  lemma ShowsNoLongerThanX<V>(data: seq<Series<V>>, t: Table<V>, vs: seq<Variant>, countries: seq<string>, k: nat, i: nat, pos: nat)
    requires Shows(data, t, vs, countries) && k < |vs| && i < |countries|
    requires LabelsPresent(XRows(t, vs[k], countries[i]))
    requires pos == BlockStart(k, |countries|) + i
    ensures pos < |data| && |data[pos].y| <= |data[pos].x|
  {
    ShowsEntryAt(data, t, vs, countries, k, i);
    ShowsSeries(data, t, vs, countries, k, i, pos);
    SeriesNoLongerThanX(t, vs[k], i, countries[i], data[pos]);
  }

  /** Entry `i` of block `k` (at `pos`) has one y value per x label when its variant's code selects x too and
      those rows carry their labels. */
  lemma ShowsAligned<V>(data: seq<Series<V>>, t: Table<V>, vs: seq<Variant>, countries: seq<string>, k: nat, i: nat, pos: nat)
    requires Shows(data, t, vs, countries) && k < |vs| && i < |countries|
    requires vs[k].codeFiltersX && LabelsPresent(VariantRows(t, vs[k], countries[i]))
    requires pos == BlockStart(k, |countries|) + i
    ensures pos < |data| && |data[pos].y| == |data[pos].x|
  {
    ShowsEntryAt(data, t, vs, countries, k, i);
    ShowsSeries(data, t, vs, countries, k, i, pos);
    FilteredSeriesAligned(t, vs[k], i, countries[i], data[pos]);
  }

  // Charts of two and three variants: country `i` of `n` has its series at `i`, `n + i` and `n + n + i`.

  lemma ShowsTwoStyled<V>(data: seq<Series<V>>, t: Table<V>, vs: seq<Variant>, countries: seq<string>, i: nat)
    requires Shows(data, t, vs, countries) && |vs| == 2 && i < |countries|
    ensures var n := |countries|;
      |data| == n + n && Styled(data[i], vs[0], i, countries[i]) && Styled(data[n + i], vs[1], i, countries[i])
  {
    var n := |countries|;
    BlockStarts(n);
    ShowsAt(data, t, vs, countries, 0, i, i);
    ShowsAt(data, t, vs, countries, 1, i, n + i);
  }

  /** A chart of two variants styles country `i`'s first series by the first variant and its second by the second. */
  lemma TwoBlocksStyled<V>(t: Table<V>, vs: seq<Variant>, countries: seq<string>, title: string, years: seq<int>, i: nat)
    requires LineChart(t, vs, countries, title, years).Success? && |vs| == 2 && i < |countries|
    ensures var d, n := LineChart(t, vs, countries, title, years).value.data, |countries|;
      |d| == n + n && Styled(d[i], vs[0], i, countries[i]) && Styled(d[n + i], vs[1], i, countries[i])
  {
    LineChartShows(t, vs, countries, title, years);
    ShowsTwoStyled(LineChart(t, vs, countries, title, years).value.data, t, vs, countries, i);
  }

  lemma ShowsThreeStyled<V>(data: seq<Series<V>>, t: Table<V>, vs: seq<Variant>, countries: seq<string>, i: nat)
    requires Shows(data, t, vs, countries) && |vs| == 3 && i < |countries|
    ensures var n := |countries|;
      |data| == n + n + n && n + n + i < |data| &&
      Styled(data[i], vs[0], i, countries[i]) && Styled(data[n + i], vs[1], i, countries[i]) &&
      Styled(data[n + n + i], vs[2], i, countries[i])
  {
    var n := |countries|;
    BlockStarts(n);
    ShowsAt(data, t, vs, countries, 0, i, i);
    ShowsAt(data, t, vs, countries, 1, i, n + i);
    ShowsAt(data, t, vs, countries, 2, i, n + n + i);
  }

  /** A chart of three variants styles country `i`'s three series by the three variants, in order. */
  lemma ThreeBlocksStyled<V>(t: Table<V>, vs: seq<Variant>, countries: seq<string>, title: string, years: seq<int>, i: nat)
    requires LineChart(t, vs, countries, title, years).Success? && |vs| == 3 && i < |countries|
    ensures var d, n := LineChart(t, vs, countries, title, years).value.data, |countries|;
      |d| == n + n + n && n + n + i < |d| &&
      Styled(d[i], vs[0], i, countries[i]) && Styled(d[n + i], vs[1], i, countries[i]) &&
      Styled(d[n + n + i], vs[2], i, countries[i])
  {
    LineChartShows(t, vs, countries, title, years);
    ShowsThreeStyled(LineChart(t, vs, countries, title, years).value.data, t, vs, countries, i);
  }

  lemma ShowsTwoNoLongerThanX<V>(data: seq<Series<V>>, t: Table<V>, vs: seq<Variant>, countries: seq<string>, i: nat)
    requires Shows(data, t, vs, countries) && |vs| == 2 && i < |countries|
    requires !vs[0].codeFiltersX && !vs[1].codeFiltersX
    requires LabelsPresent(CountryRows(t, countries[i]))
    ensures var n := |countries|;
      n + i < |data| && |data[i].y| <= |data[i].x| && |data[n + i].y| <= |data[n + i].x|
  {
    var n := |countries|;
    BlockStarts(n);
    ShowsNoLongerThanX(data, t, vs, countries, 0, i, i);
    ShowsNoLongerThanX(data, t, vs, countries, 1, i, n + i);
  }

  /** A chart of two variants whose x both come from the country's rows: when those rows carry their labels,
      neither of the country's two series has more y values than x labels. */
  lemma TwoBlocksNoLongerThanX<V>(t: Table<V>, vs: seq<Variant>, countries: seq<string>, title: string, years: seq<int>, i: nat)
    requires LineChart(t, vs, countries, title, years).Success? && |vs| == 2 && i < |countries|
    requires !vs[0].codeFiltersX && !vs[1].codeFiltersX
    requires LabelsPresent(CountryRows(t, countries[i]))
    ensures var d, n := LineChart(t, vs, countries, title, years).value.data, |countries|;
      n + i < |d| && |d[i].y| <= |d[i].x| && |d[n + i].y| <= |d[n + i].x|
  {
    LineChartShows(t, vs, countries, title, years);
    ShowsTwoNoLongerThanX(LineChart(t, vs, countries, title, years).value.data, t, vs, countries, i);
  }

  lemma ShowsThreeNoLongerThanX<V>(data: seq<Series<V>>, t: Table<V>, vs: seq<Variant>, countries: seq<string>, i: nat)
    requires Shows(data, t, vs, countries) && |vs| == 3 && i < |countries|
    requires !vs[0].codeFiltersX && !vs[1].codeFiltersX && !vs[2].codeFiltersX
    requires LabelsPresent(CountryRows(t, countries[i]))
    ensures var n := |countries|;
      n + n + i < |data| &&
      |data[i].y| <= |data[i].x| && |data[n + i].y| <= |data[n + i].x| && |data[n + n + i].y| <= |data[n + n + i].x|
  {
    var n := |countries|;
    BlockStarts(n);
    ShowsNoLongerThanX(data, t, vs, countries, 0, i, i);
    ShowsNoLongerThanX(data, t, vs, countries, 1, i, n + i);
    ShowsNoLongerThanX(data, t, vs, countries, 2, i, n + n + i);
  }

  /** A chart of three variants whose x all come from the country's rows: when those rows carry their labels,
      none of the country's three series has more y values than x labels. */
  lemma ThreeBlocksNoLongerThanX<V>(t: Table<V>, vs: seq<Variant>, countries: seq<string>, title: string, years: seq<int>, i: nat)
    requires LineChart(t, vs, countries, title, years).Success? && |vs| == 3 && i < |countries|
    requires !vs[0].codeFiltersX && !vs[1].codeFiltersX && !vs[2].codeFiltersX
    requires LabelsPresent(CountryRows(t, countries[i]))
    ensures var d, n := LineChart(t, vs, countries, title, years).value.data, |countries|;
      n + n + i < |d| &&
      |d[i].y| <= |d[i].x| && |d[n + i].y| <= |d[n + i].x| && |d[n + n + i].y| <= |d[n + n + i].x|
  {
    LineChartShows(t, vs, countries, title, years);
    ShowsThreeNoLongerThanX(LineChart(t, vs, countries, title, years).value.data, t, vs, countries, i);
  }

  lemma ShowsTwoAligned<V>(data: seq<Series<V>>, t: Table<V>, vs: seq<Variant>, countries: seq<string>, i: nat)
    requires Shows(data, t, vs, countries) && |vs| == 2 && i < |countries|
    requires vs[0].codeFiltersX && vs[1].codeFiltersX
    requires LabelsPresent(VariantRows(t, vs[0], countries[i])) && LabelsPresent(VariantRows(t, vs[1], countries[i]))
    ensures var n := |countries|;
      n + i < |data| && |data[i].y| == |data[i].x| && |data[n + i].y| == |data[n + i].x|
  {
    var n := |countries|;
    BlockStarts(n);
    ShowsAligned(data, t, vs, countries, 0, i, i);
    ShowsAligned(data, t, vs, countries, 1, i, n + i);
  }

  /** Two variants whose codes select x too: country `i`'s two series each have one y value per x label. */
  lemma TwoBlocksAligned<V>(t: Table<V>, vs: seq<Variant>, countries: seq<string>, title: string, years: seq<int>, i: nat)
    requires LineChart(t, vs, countries, title, years).Success? && |vs| == 2 && i < |countries|
    requires vs[0].codeFiltersX && vs[1].codeFiltersX
    requires LabelsPresent(VariantRows(t, vs[0], countries[i])) && LabelsPresent(VariantRows(t, vs[1], countries[i]))
    ensures var d, n := LineChart(t, vs, countries, title, years).value.data, |countries|;
      n + i < |d| && |d[i].y| == |d[i].x| && |d[n + i].y| == |d[n + i].x|
  {
    LineChartShows(t, vs, countries, title, years);
    ShowsTwoAligned(LineChart(t, vs, countries, title, years).value.data, t, vs, countries, i);
  }

  lemma ShowsThreeAligned<V>(data: seq<Series<V>>, t: Table<V>, vs: seq<Variant>, countries: seq<string>, i: nat)
    requires Shows(data, t, vs, countries) && |vs| == 3 && i < |countries|
    requires vs[0].codeFiltersX && vs[1].codeFiltersX && vs[2].codeFiltersX
    requires LabelsPresent(VariantRows(t, vs[0], countries[i])) && LabelsPresent(VariantRows(t, vs[1], countries[i]))
    requires LabelsPresent(VariantRows(t, vs[2], countries[i]))
    ensures var n := |countries|;
      n + n + i < |data| &&
      |data[i].y| == |data[i].x| && |data[n + i].y| == |data[n + i].x| && |data[n + n + i].y| == |data[n + n + i].x|
  {
    var n := |countries|;
    BlockStarts(n);
    ShowsAligned(data, t, vs, countries, 0, i, i);
    ShowsAligned(data, t, vs, countries, 1, i, n + i);
    ShowsAligned(data, t, vs, countries, 2, i, n + n + i);
  }

  /** Three variants whose codes select x too: country `i`'s three series each have one y value per x label. */
  lemma ThreeBlocksAligned<V>(t: Table<V>, vs: seq<Variant>, countries: seq<string>, title: string, years: seq<int>, i: nat)
    requires LineChart(t, vs, countries, title, years).Success? && |vs| == 3 && i < |countries|
    requires vs[0].codeFiltersX && vs[1].codeFiltersX && vs[2].codeFiltersX
    requires LabelsPresent(VariantRows(t, vs[0], countries[i])) && LabelsPresent(VariantRows(t, vs[1], countries[i]))
    requires LabelsPresent(VariantRows(t, vs[2], countries[i]))
    ensures var d, n := LineChart(t, vs, countries, title, years).value.data, |countries|;
      n + n + i < |d| &&
      |d[i].y| == |d[i].x| && |d[n + i].y| == |d[n + i].x| && |d[n + n + i].y| == |d[n + n + i].x|
  {
    LineChartShows(t, vs, countries, title, years);
    ShowsThreeAligned(LineChart(t, vs, countries, title, years).value.data, t, vs, countries, i);
  }
}
