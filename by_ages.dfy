/** The "Population by ages" view: one figure per five-year age band (female and male lines per country), or
    one stacked bar figure per country (female and male bars per age band), laid out in rows of graphs. */
module PopulationByAges {
  import opened Python
  import opened Tables
  import opened Charts

  // ---------------------------------------------------------------------------
  // Age-band indicator codes

  const Female: string := "FE"
  const Male: string := "MA"
  /** Appended to a code to get the share of the population instead of the head count. */
  const ShareSuffix: string := ".5Y"

  /** The first ages of the sixteen closed bands: `range(0, 76, 5)`. */
  function BandStarts(): (r: seq<nat>)
  {
    Range(0, 76, 5)
  }

  /** `f"SP.POP.{str(i).zfill(2)}{str(i+4).zfill(2)}.{sex}{suffix}"`. */
  function BandCode(start: nat, sex: string, suffix: string): (code: string)
  {
    "SP.POP." + ZFill(Str(start), 2) + ZFill(Str(start + 4), 2) + "." + sex + suffix
  }

  /** One list of the constructor: a code per closed band, in order, then the open band "80UP". */
  function AgeCodes(sex: string, suffix: string): (codes: seq<string>)
  {
    var starts := BandStarts();
    seq(|starts|, k requires 0 <= k < |starts| => BandCode(starts[k], sex, suffix)) + ["SP.POP.80UP." + sex + suffix]
  }

  /** The part of a closed band's code before the sex, written digit by digit: "SP.POP.", the two-digit
      first and last ages of the band starting at `start`, and a dot. */
  function Stem(start: nat): (stem: string)
    requires start + 4 < 100
  {
    "SP.POP." + [DigitChar(start / 10), DigitChar(start % 10), DigitChar((start + 4) / 10), DigitChar((start + 4) % 10)] + "."
  }

  /** The stem of the `k`-th code: that of the band starting at `5k`, or "SP.POP.80UP." for the last. */
  function Band(k: nat): (stem: string)
    requires k < 17
  {
    if k < 16 then Stem(5 * k) else "SP.POP.80UP."
  }

  lemma BandStartValues()
    ensures |BandStarts()| == 16 && forall k :: 0 <= k < 16 ==> BandStarts()[k] == 5 * k
  {
    BandStartCount();
    forall k | 0 <= k < 16
      ensures BandStarts()[k] == 5 * k
    {
      BandStartAt(k);
    }
  }

  lemma BandStartCount()
    ensures |BandStarts()| == 16
  {
    BandRangeLength(0);
  }

  /** The starts from `5j` on number `16 - j`. */
  lemma {:induction false} BandRangeLength(j: nat)
    requires j <= 16
    ensures |Range(5 * j, 76, 5)| == 16 - j
    decreases 16 - j
  {
    if j < 16 {
      BandRangeLength(j + 1);
      assert 5 * j + 5 == 5 * (j + 1);
    }
  }

  lemma {:induction false} BandStartAt(k: nat)
    requires k < |BandStarts()|
    ensures BandStarts()[k] == 5 * k
  {
    RangeAt(0, 76, 5, k);
    if k > 0 {
      BandStartAt(k - 1);
    }
  }

  /** Each list has seventeen codes; the `k`-th is the `k`-th band's stem followed by the sex and the suffix. */
  lemma AgeCodesAt(sex: string, suffix: string)
    ensures |AgeCodes(sex, suffix)| == 17
    ensures forall k :: 0 <= k < 17 ==> AgeCodes(sex, suffix)[k] == Band(k) + sex + suffix
  {
    BandStartValues();
    forall k | 0 <= k < 16
      ensures AgeCodes(sex, suffix)[k] == Band(k) + sex + suffix
    {
      assert AgeCodes(sex, suffix)[k] == BandCode(5 * k, sex, suffix);
      BandCodeDigits(5 * k, sex, suffix);
    }
  }

  /** `str(i).zfill(2)` and `str(i+4).zfill(2)` are the two digits of each age. */
  lemma BandCodeDigits(start: nat, sex: string, suffix: string)
    requires start + 4 < 100
    ensures BandCode(start, sex, suffix) == Stem(start) + sex + suffix
  {
    AgeDigits(start);
    Regroup("SP.POP.", ZFill(Str(start), 2), ZFill(Str(start + 4), 2), ".", sex, suffix);
  }

  lemma Regroup(p: string, a: string, b: string, m: string, s: string, t: string)
    ensures p + a + b + m + s + t == p + (a + b) + m + s + t
  {
  }

  lemma AgeDigits(start: nat)
    requires start + 4 < 100
    ensures ZFill(Str(start), 2) + ZFill(Str(start + 4), 2)
      == [DigitChar(start / 10), DigitChar(start % 10), DigitChar((start + 4) / 10), DigitChar((start + 4) % 10)]
  {
    TwoDigits(start);
    TwoDigits(start + 4);
    PairsConcat(ZFill(Str(start), 2), ZFill(Str(start + 4), 2));
  }

  lemma PairsConcat(x: string, y: string)
    requires |x| == 2 && |y| == 2
    ensures x + y == [x[0], x[1], y[0], y[1]]
  {
  }

  /** The share codes are the head-count codes with ".5Y" appended. */
  lemma ShareCodes(sex: string)
    ensures |AgeCodes(sex, ShareSuffix)| == |AgeCodes(sex, "")| == 17
    ensures forall k :: 0 <= k < 17 ==> AgeCodes(sex, ShareSuffix)[k] == AgeCodes(sex, "")[k] + ShareSuffix
  {
    AgeCodesAt(sex, ShareSuffix);
    AgeCodesAt(sex, "");
  }

  /** The female and male codes of a band differ only in "FE" against "MA". */
  lemma SexCodes(suffix: string)
    ensures |AgeCodes(Female, suffix)| == |AgeCodes(Male, suffix)| == 17
    ensures forall k :: 0 <= k < 17 ==>
      AgeCodes(Female, suffix)[k] == Band(k) + "FE" + suffix && AgeCodes(Male, suffix)[k] == Band(k) + "MA" + suffix
  {
    AgeCodesAt(Female, suffix);
    AgeCodesAt(Male, suffix);
  }

  /** No two bands share a code, so every band gets its own figure. */
  lemma AgeCodesDistinct(sex: string, suffix: string)
    ensures forall j, k :: 0 <= j < k < |AgeCodes(sex, suffix)| ==> AgeCodes(sex, suffix)[j] != AgeCodes(sex, suffix)[k]
  {
    AgeCodesAt(sex, suffix);
    forall j, k | 0 <= j < k < 17
      ensures AgeCodes(sex, suffix)[j] != AgeCodes(sex, suffix)[k]
    {
      BandsDiffer(j, k);
      StemChars(Band(j), sex, suffix);
      StemChars(Band(k), sex, suffix);
    }
  }

  /** Characters 7 and 8 of a code are those of its band's stem. */
  lemma StemChars(band: string, sex: string, suffix: string)
    requires |band| >= 9
    ensures (band + sex + suffix)[7] == band[7] && (band + sex + suffix)[8] == band[8]
  {
  }

  /** Two bands differ in the first age's two digits. */
  lemma BandsDiffer(j: nat, k: nat)
    requires j < k < 17
    ensures |Band(j)| >= 9 && |Band(k)| >= 9
    ensures Band(j)[7] != Band(k)[7] || Band(j)[8] != Band(k)[8]
  {
    var a := 5 * j;
    assert a < 80;
    assert Band(j) == Stem(a);
    StemDigits(a);
    if k < 16 {
      var b := 5 * k;
      assert a < b < 80;
      assert Band(k) == Stem(b);
      StemDigits(b);
      DecimalDigitsDiffer(a, b);
      if a / 10 != b / 10 {
        DigitCharInjective(a / 10, b / 10);
      } else {
        DigitCharInjective(a % 10, b % 10);
      }
    } else {
      assert Band(k)[7] == '8';
      DigitCharInjective(a / 10, 8);
    }
  }

  /** Characters 7 and 8 of a stem are the digits of the band's first age. */
  lemma StemDigits(start: nat)
    requires start + 4 < 100
    ensures |Stem(start)| == 12
    ensures Stem(start)[7] == DigitChar(start / 10) && Stem(start)[8] == DigitChar(start % 10)
  {
  }

  lemma DecimalDigitsDiffer(a: nat, b: nat)
    requires a < b < 100
    ensures a / 10 != b / 10 || a % 10 != b % 10
  {
  }

  lemma DigitCharInjective(d: nat, e: nat)
    requires d < 10 && e < 10 && d != e
    ensures DigitChar(d) != DigitChar(e)
  {
  }

  // ---------------------------------------------------------------------------
  // Years to column positions

  /** `[4 + years[0] - 1960, 4 + years[1] - 1960]`: an `IndexError` when fewer than two years are selected. */
  function YearColumns(years: seq<int>): (r: Result<(int, int)>)
    ensures r.Success? <==> |years| >= 2
    ensures r.Failure? ==> r.error == IndexError
    ensures r.Success? ==> r.value.0 - r.value.1 == years[0] - years[1]
  {
    if |years| < 2 then Failure(IndexError)
    else Success((FirstYearColumn + years[0] - FirstYear, FirstYearColumn + years[1] - FirstYear))
  }

  /** With year-labelled columns, the positions of a selected range `[y0, y1]` slice out the labels of
      the years `y0, ..., y1 - 1`: the range is half open, and the last selected year is not shown. */
  lemma YearWindow(columns: seq<string>, y0: nat, y1: nat)
    requires YearLabelled(columns)
    requires FirstYear <= y0 <= y1 && FirstYearColumn + y1 - FirstYear <= |columns|
    ensures YearColumns([y0, y1]) == Success((FirstYearColumn + y0 - FirstYear, FirstYearColumn + y1 - FirstYear))
    ensures |Window(columns, y0, y1)| == y1 - y0
    ensures forall k :: 0 <= k < y1 - y0 ==> Window(columns, y0, y1)[k] == Str(y0 + k)
    ensures Str(y1) !in Window(columns, y0, y1) && (y0 < y1 ==> Str(y0) in Window(columns, y0, y1))
  {
    YearColumnsOfRange(y0, y1);
    WindowLabels(columns, y0, y1);
    WindowBounds(Window(columns, y0, y1), y0, y1);
  }

  /** The positions of the first two selected years. */
  lemma YearColumnsOf(years: seq<int>)
    requires |years| >= 2
    ensures YearColumns(years) == Success((FirstYearColumn + years[0] - FirstYear, FirstYearColumn + years[1] - FirstYear))
  {
  }

  /** The positions of a selected range `[y0, y1]`. */
  lemma YearColumnsOfRange(y0: int, y1: int)
    ensures YearColumns([y0, y1]) == Success((FirstYearColumn + y0 - FirstYear, FirstYearColumn + y1 - FirstYear))
  {
    var years := [y0, y1];
    assert years[0] == y0 && years[1] == y1;
    YearColumnsOf(years);
  }

  /** The year-labelled columns a selected range `[y0, y1]` slices out. */
  function Window(columns: seq<string>, y0: int, y1: int): seq<string>
  {
    Slice(columns, FirstYearColumn + y0 - FirstYear, FirstYearColumn + y1 - FirstYear)
  }

  /** The columns a selected range slices out carry the consecutive year labels from `y0` on. */
  lemma WindowLabels(columns: seq<string>, y0: nat, y1: nat)
    requires YearLabelled(columns)
    requires FirstYear <= y0 <= y1 && FirstYearColumn + y1 - FirstYear <= |columns|
    ensures |Window(columns, y0, y1)| == y1 - y0
    ensures forall k :: 0 <= k < y1 - y0 ==> Window(columns, y0, y1)[k] == Str(y0 + k)
  {
    var a, b := FirstYearColumn + y0 - FirstYear, FirstYearColumn + y1 - FirstYear;
    var w := Window(columns, y0, y1);
    assert w == columns[a..b];
    forall k | 0 <= k < b - a
      ensures w[k] == Str(y0 + k)
    {
      assert w[k] == columns[a + k];
    }
  }

  /** Consecutive labels from `y0` that stop before `y1` hold `y0` when not empty, and never `y1`. */
  lemma WindowBounds(w: seq<string>, y0: nat, y1: nat)
    requires |w| == y1 - y0 && forall k :: 0 <= k < |w| ==> w[k] == Str(y0 + k)
    ensures Str(y1) !in w && (y0 < y1 ==> Str(y0) in w)
  {
    if Str(y1) in w {
      var k :| 0 <= k < |w| && w[k] == Str(y1);
      StrInjective(y0 + k, y1);
    }
    if y0 < y1 {
      assert w[0] == Str(y0);
    }
  }

  // ---------------------------------------------------------------------------
  // Figures

  /** The settings' "View by" value that selects one figure per age band; anything else gives one
      figure per country. */
  const AgeGroup: string := "age-group"
  /** The settings' value that selects head counts; anything else selects shares. */
  const Absolute: string := "absolute"
  /** The column cap of the age-band layout. */
  const AgeGroupColumns: nat := 4

  /** A stacked bar trace: x labels, y cells and the legend name. */
  datatype Bar<V> = Bar(x: seq<string>, y: seq<Cell<V>>, name: string)

  /** A graph: line traces under a title, or stacked bars under a title with the legend shown or hidden. */
  datatype Graph<V> = Lines(lines: seq<Series<V>>, title: string) | Bars(bars: seq<Bar<V>>, title: string, showLegend: bool)

  /** A view element: the graph and the id it is registered under. */
  datatype Element<V> = Element(id: string, graph: Graph<V>)

  /** The tables the view keeps: head counts and shares per age band, for each sex. */
  datatype View<V> = View(female: Dataset<V>, male: Dataset<V>, femaleShares: Dataset<V>, maleShares: Dataset<V>)

  /** The constructor: each table is the dataset's rows of one of the four code lists. */
  function Init<V>(df: Dataset<V>): (view: View<V>)
    ensures CodeSelection(view.female, df, IsIn(AgeCodes(Female, "")))
    ensures CodeSelection(view.male, df, IsIn(AgeCodes(Male, "")))
    ensures CodeSelection(view.femaleShares, df, IsIn(AgeCodes(Female, ShareSuffix)))
    ensures CodeSelection(view.maleShares, df, IsIn(AgeCodes(Male, ShareSuffix)))
  {
    View(
      WhereData(df, IndicatorCodeColumn, IsIn(AgeCodes(Female, ""))),
      WhereData(df, IndicatorCodeColumn, IsIn(AgeCodes(Male, ""))),
      WhereData(df, IndicatorCodeColumn, IsIn(AgeCodes(Female, ShareSuffix))),
      WhereData(df, IndicatorCodeColumn, IsIn(AgeCodes(Male, ShareSuffix))))
  }

  /** `df.loc[country].loc[code].iloc[:, a:b].dropna(axis="columns", how="all").values.tolist()[0]`:
      the country's values of one code in the column window, or an `IndexError` when it has no such row. */
  function WindowValues<V>(t: Table<V>, country: string, code: string, a: int, b: int): (r: Result<seq<Cell<V>>>)
    ensures r.Success? <==> HasRow(t, country, Some(code))
    ensures r.Failure? ==> r.error == IndexError
  {
    FirstRow(DropEmptyColumns(ILocColumns(CodeRows(t, country, code), a, b)))
  }

  /** When the country has one row of the code, its values are that row's cells in the window with the
      empty ones left out, in column order. */
  lemma WindowValuesOfSingleRow<V>(t: Table<V>, country: string, code: string, a: int, b: int)
    requires |CodeRows(t, country, code).rows| == 1
    ensures var w := Slice(CodeRows(t, country, code).rows[0], a, b);
      WindowValues(t, country, code, a, b) == Success(Compress(w, PresentMask(w)))
    ensures Missing !in WindowValues(t, country, code, a, b).value
  {
    var rows := CodeRows(t, country, code);
    var s := ILocColumns(rows, a, b);
    var w := s.rows[0];
    assert w == Slice(rows.rows[0], a, b);
    SingleRowMask(s);
    var d := DropEmptyColumns(s);
    assert d.rows[0] == Compress(w, PresentMask(w));
    assert FirstRow(d) == Success(d.rows[0]);
    CompressPresent(w, PresentMask(w));
  }

  /** What `str(...)` gives for an indicator-name cell: its text, "nan" for an empty cell. */
  function CellText<V>(c: Cell<V>): string {
    match c
    case Text(s) => s
    case Missing => "nan"
    case Number(_) => ""
  }

  /** The suffix stripped from the female indicator name to get a figure or bar title. */
  const FemaleNameSuffix: string := ", female"

  /** `str(df.loc[df["Indicator Code"] == code]["Indicator Name"].tolist()[0]).replace(", female", "")`:
      an `IndexError` when the table has no row of the code. */
  function IndicatorTitle<V>(t: Dataset<V>, code: string): (r: Result<string>)
    ensures r.Success? <==> exists row <- t.rows :: Selects(row, IndicatorCodeColumn, Equals(code))
    ensures r.Failure? ==> r.error == IndexError
  {
    var rows := Where(t, IndicatorCodeColumn, Equals(code));
    var names := Column(rows, IndicatorNameColumn);
    if |names| == 0 then Failure(IndexError)
    else
      assert rows.rows[0] in rows.rows;
      Success(RemoveAll(CellText(names[0]), FemaleNameSuffix))
  }

  /** The title is the name of the code's first row, with every ", female" removed; a name without
      ", female" is kept as it is. */
  lemma IndicatorTitleName<V>(t: Dataset<V>, code: string)
    requires IndicatorTitle(t, code).Success?
    ensures var first := Where(t, IndicatorCodeColumn, Equals(code)).rows[0];
      first in t.rows && Selects(first, IndicatorCodeColumn, Equals(code)) &&
      IndicatorTitle(t, code).value == RemoveAll(CellText(first[IndicatorNameColumn]), FemaleNameSuffix)
    ensures var name := CellText(Where(t, IndicatorCodeColumn, Equals(code)).rows[0][IndicatorNameColumn]);
      (forall i: nat :: i + |FemaleNameSuffix| <= |name| ==> !OccursAt(name, FemaleNameSuffix, i)) ==>
      IndicatorTitle(t, code).value == name
  {
    var name := CellText(Where(t, IndicatorCodeColumn, Equals(code)).rows[0][IndicatorNameColumn]);
    if forall i: nat :: i + |FemaleNameSuffix| <= |name| ==> !OccursAt(name, FemaleNameSuffix, i) {
      RemoveAllAbsent(name, FemaleNameSuffix);
    }
  }

  /** A name holding ", female" once, with no comma before it or after it, loses exactly that text. */
  lemma IndicatorTitleDropsFemale<V>(t: Dataset<V>, code: string, k: nat)
    requires IndicatorTitle(t, code).Success?
    requires var name := CellText(Where(t, IndicatorCodeColumn, Equals(code)).rows[0][IndicatorNameColumn]);
      k + |FemaleNameSuffix| <= |name| && OccursAt(name, FemaleNameSuffix, k) &&
      ',' !in name[..k] && ',' !in name[k + |FemaleNameSuffix|..]
    ensures var name := CellText(Where(t, IndicatorCodeColumn, Equals(code)).rows[0][IndicatorNameColumn]);
      IndicatorTitle(t, code).value == name[..k] + name[k + |FemaleNameSuffix|..]
  {
    var name := CellText(Where(t, IndicatorCodeColumn, Equals(code)).rows[0][IndicatorNameColumn]);
    IndicatorTitleName(t, code);
    RemoveAllOnce(name, FemaleNameSuffix, k);
  }

  /** The female head-count share name of the first band gives the band's title. */
  lemma FemaleBandTitle()
    ensures RemoveAll("Population ages 00-04" + FemaleNameSuffix + " (% of female population)", FemaleNameSuffix)
      == "Population ages 00-04" + " (% of female population)"
  {
    var p, q := "Population ages 00-04", " (% of female population)";
    RemoveAllSkip(p, FemaleNameSuffix, q);
    RemoveAllNone(q, FemaleNameSuffix);
  }

  /** The line of the `i`-th country for one age band: x is the window of the table's non-empty year
      columns, y the country's values in the window; both sexes are dotted and share the country's colour. */
  function AgeSeries<V>(t: Table<V>, code: string, a: int, b: int, i: nat, country: string, suffix: string): (r: Result<Series<V>>)
    ensures r.Success? <==> HasRow(t, country, Some(code))
    ensures r.Failure? ==> r.error == IndexError
    ensures r.Success? ==> r.value.x == Slice(DropEmptyColumns(t).columns, a, b)
    ensures r.Success? ==> r.value.y == WindowValues(t, country, code, a, b).value
    ensures r.Success? ==> r.value.name == country + suffix && r.value.color == Some(i % PaletteSize) && r.value.dash == Some(Dot)
  {
    var y :- WindowValues(t, country, code, a, b);
    Success(Series(Slice(DropEmptyColumns(t).columns, a, b), y, country + suffix, Some(i % PaletteSize), Some(Dot)))
  }

  /** `[{...} for i, x in enumerate(countries)]` for one sex of an age band: the countries' lines in order,
      or the `IndexError` of the first country without a row of the code. */
  function AgeLines<V>(t: Table<V>, code: string, a: int, b: int, countries: seq<string>, suffix: string)
    : (r: Result<seq<Series<V>>>)
    ensures r.Success? <==> forall c <- countries :: HasRow(t, c, Some(code))
    ensures r.Failure? ==> r.error == IndexError
    ensures r.Success? ==> |r.value| == |countries|
    ensures r.Success? ==>
      forall i :: 0 <= i < |countries| ==> AgeSeries(t, code, a, b, i, countries[i], suffix) == Success(r.value[i])
  {
    var f := (i: nat, c: string) => AgeSeries(t, code, a, b, i, c, suffix);
    MapEnumerateAt(f, countries);
    assert (forall c <- countries :: HasRow(t, c, Some(code))) <==> forall i :: 0 <= i < |countries| ==> f(i, countries[i]).Success?;
    MapEnumerate(f, countries)
  }

  /** One age band's figure: the female lines of all countries, then the male lines, titled by the
      female indicator's name; registered under the female code. */
  function AgeGroupElement<V>(view: View<V>, codes: (string, string), a: int, b: int, countries: seq<string>): (r: Result<Element<V>>)
    ensures r.Failure? ==> r.error == IndexError
    ensures r.Success? <==> BandRows(view, codes, countries)
  {
    var female :- AgeLines(view.female, codes.0, a, b, countries, ", female");
    var male :- AgeLines(view.male, codes.1, a, b, countries, ", male");
    var title :- IndicatorTitle(view.female, codes.0);
    Success(Element(codes.0, Lines(female + male, title)))
  }

  /** The rows an age band's figure needs: a row of the band for each country in both tables, and a row of
      the female code to take the title from. */
  ghost predicate BandRows<V>(view: View<V>, codes: (string, string), countries: seq<string>)
  {
    (forall c <- countries :: HasRow(view.female, c, Some(codes.0))) &&
    (forall c <- countries :: HasRow(view.male, c, Some(codes.1))) &&
    exists row <- view.female.rows :: Selects(row, IndicatorCodeColumn, Equals(codes.0))
  }

  /** Every age band has the rows its figure needs. */
  ghost predicate AllBandRows<V>(view: View<V>, countries: seq<string>)
  {
    forall k :: 0 <= k < |AgeCodePairs()| ==> BandRows(view, AgeCodePairs()[k], countries)
  }

  /** The element function of the age-band comprehension. */
  function AgeStep<V>(view: View<V>, a: int, b: int, countries: seq<string>): (nat, (string, string)) -> Result<Element<V>>
  {
    (k: nat, codes: (string, string)) => AgeGroupElement(view, codes, a, b, countries)
  }

  /** `zip(absolute_indicators_female, absolute_indicators_male)`. */
  function AgeCodePairs(): (pairs: seq<(string, string)>)
  {
    Zip(AgeCodes(Female, ""), AgeCodes(Male, ""))
  }

  /** The x labels of a country's bars: `"<year>, female"` then `"<year>, male"` for each year label. */
  function PairLabels(xs: seq<string>): (r: seq<string>)
    ensures |r| == |xs| + |xs|
    ensures forall k :: 0 <= k < |xs| ==> r[k + k] == xs[k] + ", female" && r[k + k + 1] == xs[k] + ", male"
  {
    if xs == [] then [] else PairLabels(xs[..|xs| - 1]) + [xs[|xs| - 1] + ", female", xs[|xs| - 1] + ", male"]
  }

  /** The year labels in the window of the female head-count table's non-empty columns, whatever the mode. */
  function YearLabels<V>(view: View<V>, a: int, b: int): (xs: seq<string>)
  {
    Slice(DropEmptyColumns(view.female).columns, a, b)
  }

  /** One age band's bar in a country's figure: y alternates the female and the male value of each year and
      stops with the shorter list; the bar is named by the female indicator's name. */
  function AgeBar<V>(female: Dataset<V>, male: Dataset<V>, codes: (string, string), a: int, b: int, country: string, x: seq<string>): (r: Result<Bar<V>>)
    ensures r.Success? <==>
      HasRow(female, country, Some(codes.0)) && HasRow(male, country, Some(codes.1)) &&
      exists row <- female.rows :: Selects(row, IndicatorCodeColumn, Equals(codes.0))
    ensures r.Failure? ==> r.error == IndexError
    ensures r.Success? ==> r.value.x == x && r.value.name == IndicatorTitle(female, codes.0).value
  {
    var f :- WindowValues(female, country, codes.0, a, b);
    var m :- WindowValues(male, country, codes.1, a, b);
    var name :- IndicatorTitle(female, codes.0);
    Success(Bar(x, Interleave(f, m), name))
  }

  /** A bar's y alternates the female and the male value of each year and stops with the shorter list. */
  lemma AgeBarValues<V>(female: Dataset<V>, male: Dataset<V>, codes: (string, string), a: int, b: int, country: string, x: seq<string>)
    requires AgeBar(female, male, codes, a, b, country, x).Success?
    ensures var y := AgeBar(female, male, codes, a, b, country, x).value.y;
      var f, m := WindowValues(female, country, codes.0, a, b).value, WindowValues(male, country, codes.1, a, b).value;
      |y| == Min(|f|, |m|) + Min(|f|, |m|) &&
      forall k :: 0 <= k < Min(|f|, |m|) ==> y[k + k] == f[k] && y[k + k + 1] == m[k]
  {
    InterleaveAt(WindowValues(female, country, codes.0, a, b).value, WindowValues(male, country, codes.1, a, b).value);
  }

  /** The tables and codes of a country figure: head counts when the mode is "absolute", shares otherwise. */
  function ModeTables<V>(view: View<V>, values: string): (r: (Dataset<V>, Dataset<V>, string))
    ensures values == Absolute ==> r == (view.female, view.male, "")
    ensures values != Absolute ==> r == (view.femaleShares, view.maleShares, ShareSuffix)
  {
    if values == Absolute then (view.female, view.male, "") else (view.femaleShares, view.maleShares, ShareSuffix)
  }

  /** The bars of a country's figure, one per pair of codes in order, or the `IndexError` of the first band
      whose bar cannot be built. */
  function CountryBars<V>(female: Dataset<V>, male: Dataset<V>, suffix: string, a: int, b: int, country: string, x: seq<string>)
    : (r: Result<seq<Bar<V>>>)
    ensures r.Failure? ==> r.error == IndexError
    ensures r.Success? ==> |r.value| == |AgeCodes(Female, suffix)| == 17
    ensures r.Success? ==> forall k :: 0 <= k < |r.value| ==>
      AgeBar(female, male, (AgeCodes(Female, suffix)[k], AgeCodes(Male, suffix)[k]), a, b, country, x) == Success(r.value[k]) &&
      r.value[k].x == x
  {
    CountryBarsFail(female, male, suffix, a, b, country, x);
    CountryBarsAt(female, male, suffix, a, b, country, x);
    MapEnumerate(BarStep(female, male, a, b, country, x), Zip(AgeCodes(Female, suffix), AgeCodes(Male, suffix)))
  }

  /** The element function of the bar comprehension. */
  function BarStep<V>(female: Dataset<V>, male: Dataset<V>, a: int, b: int, country: string, x: seq<string>)
    : (nat, (string, string)) -> Result<Bar<V>>
  {
    (k: nat, codes: (string, string)) => AgeBar(female, male, codes, a, b, country, x)
  }

  lemma CountryBarsFail<V>(female: Dataset<V>, male: Dataset<V>, suffix: string, a: int, b: int, country: string, x: seq<string>)
    ensures var r := MapEnumerate(BarStep(female, male, a, b, country, x), Zip(AgeCodes(Female, suffix), AgeCodes(Male, suffix)));
      r.Failure? ==> r.error == IndexError
  {
    var f, pairs := BarStep(female, male, a, b, country, x), Zip(AgeCodes(Female, suffix), AgeCodes(Male, suffix));
    MapEnumerateAt(f, pairs);
    if MapEnumerate(f, pairs).Failure? {
      var i :| 0 <= i < |pairs| && f(i, pairs[i]) == Failure(MapEnumerate(f, pairs).error);
      assert f(i, pairs[i]) == AgeBar(female, male, pairs[i], a, b, country, x);
    }
  }

  lemma CountryBarsAt<V>(female: Dataset<V>, male: Dataset<V>, suffix: string, a: int, b: int, country: string, x: seq<string>)
    ensures var r := MapEnumerate(BarStep(female, male, a, b, country, x), Zip(AgeCodes(Female, suffix), AgeCodes(Male, suffix)));
      r.Success? ==> |r.value| == |AgeCodes(Female, suffix)| == 17 && forall k :: 0 <= k < |r.value| ==>
        AgeBar(female, male, (AgeCodes(Female, suffix)[k], AgeCodes(Male, suffix)[k]), a, b, country, x) == Success(r.value[k]) &&
        r.value[k].x == x
  {
    var f, pairs := BarStep(female, male, a, b, country, x), Zip(AgeCodes(Female, suffix), AgeCodes(Male, suffix));
    AgeCodesAt(Female, suffix);
    AgeCodesAt(Male, suffix);
    MapEnumerateAt(f, pairs);
    if MapEnumerate(f, pairs).Success? {
      var bars := MapEnumerate(f, pairs).value;
      forall k | 0 <= k < |bars|
        ensures AgeBar(female, male, (AgeCodes(Female, suffix)[k], AgeCodes(Male, suffix)[k]), a, b, country, x) == Success(bars[k])
        ensures bars[k].x == x
      {
        assert pairs[k] == (AgeCodes(Female, suffix)[k], AgeCodes(Male, suffix)[k]);
        assert f(k, pairs[k]) == AgeBar(female, male, pairs[k], a, b, country, x);
      }
    }
  }

  /** A country's figure: one stacked bar per age band, titled by the country and registered under it. */
  function CountryElement<V>(view: View<V>, country: string, a: int, b: int, values: string, x: seq<string>, legend: bool): (r: Result<Element<V>>)
    ensures r.Failure? ==> r.error == IndexError
    ensures r.Success? ==> r.value.id == country && r.value.graph.Bars? && r.value.graph.title == country
    ensures r.Success? ==> r.value.graph.showLegend == legend && |r.value.graph.bars| == 17
    ensures r.Success? ==> forall bar <- r.value.graph.bars :: bar.x == x
  {
    var (female, male, suffix) := ModeTables(view, values);
    var bars :- CountryBars(female, male, suffix, a, b, country, x);
    Success(Element(country, Bars(bars, country, legend)))
  }


  /** The element function of the country comprehension. */
  function CountryStep<V>(view: View<V>, a: int, b: int, values: string, x: seq<string>, legend: bool): (nat, string) -> Result<Element<V>>
  {
    (i: nat, country: string) => CountryElement(view, country, a, b, values, x, legend)
  }

  /** `int(ceil(n * max(45.0, 90.0 / n) / 90.0))` for `n >= 1` selected countries: one column for one or two
      countries, otherwise half of them rounded up. */
  function CountryColumns(n: nat): (cap: nat)
    requires n >= 1
    ensures cap >= 1 && cap + cap >= n && cap + cap <= n + 1
    ensures cap < 2 <==> n <= 2
  {
    (n + 1) / 2
  }

  // ---------------------------------------------------------------------------
  // Rows of at most `cap` elements

  /** The rows closed so far and the row being filled. */
  datatype Chunking<T> = Chunking(rows: seq<seq<T>>, current: seq<T>)

  /** The layout loop over `xs`: append each element to the current row and close the row when it holds
      `cap` elements or the element's index is `last`; an unfinished row at the end is not emitted. */
  function Chunk<T>(xs: seq<T>, cap: nat, last: int): (c: Chunking<T>)
    decreases |xs|
  {
    if xs == [] then Chunking([], [])
    else
      var before := Chunk(xs[..|xs| - 1], cap, last);
      var current := before.current + [xs[|xs| - 1]];
      if |current| >= cap || |xs| - 1 == last then Chunking(before.rows + [current], []) else Chunking(before.rows, current)
  }

  /** The rows one after another. */
  function Flatten<T>(rows: seq<seq<T>>): (r: seq<T>)
  {
    if rows == [] then [] else Flatten(rows[..|rows| - 1]) + rows[|rows| - 1]
  }

  /** The rows followed by the unfinished row are the elements in order. */
  lemma {:induction false} ChunkKeepsOrder<T>(xs: seq<T>, cap: nat, last: int)
    ensures Flatten(Chunk(xs, cap, last).rows) + Chunk(xs, cap, last).current == xs
    decreases |xs|
  {
    if xs != [] {
      var init, x := xs[..|xs| - 1], xs[|xs| - 1];
      ChunkKeepsOrder(init, cap, last);
      var before := Chunk(init, cap, last);
      var current := before.current + [x];
      assert xs == init + [x];
      assert Flatten(before.rows) + before.current == init;
      assert Flatten(before.rows) + current == xs;
      if |current| >= cap || |xs| - 1 == last {
        assert Chunk(xs, cap, last) == Chunking(before.rows + [current], []);
        FlattenSnoc(before.rows, current);
        assert Flatten(Chunk(xs, cap, last).rows) == Flatten(before.rows) + current;
      } else {
        assert Chunk(xs, cap, last) == Chunking(before.rows, current);
      }
    }
  }

  lemma FlattenSnoc<T>(rows: seq<seq<T>>, row: seq<T>)
    ensures Flatten(rows + [row]) == Flatten(rows) + row
  {
    assert (rows + [row])[..|rows|] == rows;
  }

  /** Every closed row holds between one and `cap` elements, and the unfinished row fewer than `cap`. */
  lemma {:induction false} ChunkRowSizes<T>(xs: seq<T>, cap: nat, last: int)
    requires cap >= 1
    ensures forall row <- Chunk(xs, cap, last).rows :: 1 <= |row| <= cap
    ensures |Chunk(xs, cap, last).current| < cap
    decreases |xs|
  {
    if xs != [] {
      ChunkRowSizes(xs[..|xs| - 1], cap, last);
    }
  }

  /** When `last` is the index of the final element, the final row is closed and every element is in a row. */
  lemma ChunkLastFlushes<T>(xs: seq<T>, cap: nat, last: int)
    requires cap >= 1 && last == |xs| - 1
    ensures Chunk(xs, cap, last).current == []
    ensures Flatten(Chunk(xs, cap, last).rows) == xs
  {
    ChunkKeepsOrder(xs, cap, last);
    ChunkRowSizes(xs, cap, last);
  }

  /** When `last` is no element's index, only full rows are closed: the rows hold the elements up to the
      largest multiple of four and the rest is left in the unfinished row. */
  lemma {:induction false} ChunkFullRows<T>(xs: seq<T>, last: int)
    requires last < 0 || last >= |xs|
    ensures |Chunk(xs, 4, last).current| == |xs| % 4
    ensures forall row <- Chunk(xs, 4, last).rows :: |row| == 4
    decreases |xs|
  {
    if xs != [] {
      ChunkFullRows(xs[..|xs| - 1], last);
    }
  }

  // ---------------------------------------------------------------------------
  // `_adjust_plots`

  /** The figures of the view in rows, given the index at which an age-band figure closes the row
      early: the age bands' figures in rows of four, or the countries' figures in rows of half the
      number of countries. An `IndexError` comes from fewer than two years or a missing row, a
      `ZeroDivisionError` from an empty country list in country mode. */
  function Arrange<V>(view: View<V>, countries: seq<string>, years: seq<int>, viewBy: string, values: string, ageLast: int)
    : (r: Result<seq<seq<Element<V>>>>)
    ensures |years| < 2 ==> r == Failure(IndexError)
    ensures |years| >= 2 && viewBy != AgeGroup && countries == [] ==> r == Failure(ZeroDivisionError)
    ensures r.Failure? ==> r.error == IndexError || (r.error == ZeroDivisionError && viewBy != AgeGroup && countries == [])
  {
    var window :- YearColumns(years);
    var a, b := window.0, window.1;
    if viewBy == AgeGroup then AgeGroupLayout(view, countries, a, b, ageLast)
    else if |countries| == 0 then Failure(ZeroDivisionError)
    else CountryLayout(view, countries, a, b, values)
  }

  /** The figures built by `f` from `xs` in order, laid out in rows; the exception of the first figure that
      cannot be built otherwise. */
  function LaidOut<X, T>(f: (nat, X) -> Result<T>, xs: seq<X>, cap: nat, last: int): (r: Result<seq<seq<T>>>)
    ensures r.Failure? ==> exists i :: 0 <= i < |xs| && f(i, xs[i]) == Failure(r.error)
  {
    MapEnumerateAt(f, xs);
    var es :- MapEnumerate(f, xs);
    Success(Chunk(es, cap, last).rows)
  }

  /** Age-group mode: the seventeen age-band figures in rows of four, a row also closing at `ageLast`. */
  function AgeGroupLayout<V>(view: View<V>, countries: seq<string>, a: int, b: int, ageLast: int)
    : (r: Result<seq<seq<Element<V>>>>)
    ensures r.Failure? ==> r.error == IndexError
  {
    LaidOut(AgeStep(view, a, b, countries), AgeCodePairs(), AgeGroupColumns, ageLast)
  }

  /** Country mode: the countries' figures in rows of `CountryColumns` figures, the last country closing
      the last row. */
  function CountryLayout<V>(view: View<V>, countries: seq<string>, a: int, b: int, values: string)
    : (r: Result<seq<seq<Element<V>>>>)
    requires |countries| >= 1
    ensures r.Failure? ==> r.error == IndexError
  {
    var cap := CountryColumns(|countries|);
    LaidOut(CountryStep(view, a, b, values, PairLabels(YearLabels(view, a, b)), cap < 2), countries, cap, |countries| - 1)
  }

  /** The view as the source lays it out: an age-band figure closes the row early when its index is one
      less than the number of rows of the female head-count table. Country mode is unaffected; a female
      table of seventeen rows (one country) gives the corrected layout, and a longer one gives four full
      rows of sixteen age-band figures. */
  function LayoutAsWritten<V>(view: View<V>, countries: seq<string>, years: seq<int>, viewBy: string, values: string)
    : (r: Result<seq<seq<Element<V>>>>)
    ensures viewBy != AgeGroup || |view.female.rows| == 17 ==> r == Layout(view, countries, years, viewBy, values)
    ensures r.Success? && viewBy == AgeGroup && |view.female.rows| > 17 ==> |r.value| == 4 && |Flatten(r.value)| == 16
    ensures r.Failure? ==> r.error == IndexError || (r.error == ZeroDivisionError && viewBy != AgeGroup && countries == [])
  {
    AgeCodePairsAt();
    AgeGroupCounts(view, countries, years, viewBy, values, |view.female.rows| - 1);
    Arrange(view, countries, years, viewBy, values, |view.female.rows| - 1)
  }

  /** The view as evidently intended: the last age band's figure closes the last row. Age-group mode shows
      the seventeen age-band figures in five rows; country mode shows one figure per country in rows of
      at most `CountryColumns`, as few rows as that allows. */
  function Layout<V>(view: View<V>, countries: seq<string>, years: seq<int>, viewBy: string, values: string)
    : (r: Result<seq<seq<Element<V>>>>)
    ensures r.Success? ==> |years| >= 2
    ensures r.Success? && viewBy == AgeGroup ==> |r.value| == 5 && |Flatten(r.value)| == 17
    ensures r.Success? && viewBy != AgeGroup ==>
      |countries| >= 1 && |Flatten(r.value)| == |countries| &&
      (forall row <- r.value :: 1 <= |row| <= CountryColumns(|countries|)) &&
      CountryColumns(|countries|) * (|r.value| - 1) < |countries| <= CountryColumns(|countries|) * |r.value|
    ensures r.Failure? ==> r.error == IndexError || (r.error == ZeroDivisionError && viewBy != AgeGroup && countries == [])
  {
    AgeCodePairsAt();
    AgeGroupCounts(view, countries, years, viewBy, values, |AgeCodePairs()| - 1);
    CountryCounts(view, countries, years, viewBy, values, |AgeCodePairs()| - 1);
    Arrange(view, countries, years, viewBy, values, |AgeCodePairs()| - 1)
  }

  /** In age-group mode the seventeen figures fill five rows when the last one closes its row, and four
      full rows, the last figure left out, when no index closes a row early. */
  lemma AgeGroupCounts<V>(view: View<V>, countries: seq<string>, years: seq<int>, viewBy: string, values: string, last: int)
    ensures var r := Arrange(view, countries, years, viewBy, values, last);
      r.Success? && viewBy == AgeGroup && last == 16 ==> |r.value| == 5 && |Flatten(r.value)| == 17
    ensures var r := Arrange(view, countries, years, viewBy, values, last);
      r.Success? && viewBy == AgeGroup && last > 16 ==> |r.value| == 4 && |Flatten(r.value)| == 16
  {
    var r := Arrange(view, countries, years, viewBy, values, last);
    if r.Success? && viewBy == AgeGroup && last >= 16 {
      var a, b := YearColumns(years).value.0, YearColumns(years).value.1;
      AgeGroupLink(view, countries, years, values, last, a, b);
      var pairs := AgeCodePairs();
      AgeCodePairsAt();
      var es := MapEnumerate(AgeStep(view, a, b, countries), pairs).value;
      assert r.value == Chunk(es, 4, last).rows;
      if last == 16 {
        ChunkSeventeen(es);
        ChunkLastFlushes(es, 4, 16);
      } else {
        ChunkFullRows(es, last);
        ChunkKeepsOrder(es, 4, last);
        FullRowsCount(Chunk(es, 4, last).rows, 4);
      }
    }
  }

  /** In country mode every country's figure is shown, in rows of one to `CountryColumns` figures, and
      every row but the last is full. */
  lemma CountryCounts<V>(view: View<V>, countries: seq<string>, years: seq<int>, viewBy: string, values: string, last: int)
    ensures var r := Arrange(view, countries, years, viewBy, values, last);
      r.Success? && viewBy != AgeGroup ==>
        |countries| >= 1 && |Flatten(r.value)| == |countries| &&
        (forall row <- r.value :: 1 <= |row| <= CountryColumns(|countries|)) &&
        CountryColumns(|countries|) * (|r.value| - 1) < |countries| <= CountryColumns(|countries|) * |r.value|
  {
    var r := Arrange(view, countries, years, viewBy, values, last);
    if r.Success? && viewBy != AgeGroup {
      var a, b := YearColumns(years).value.0, YearColumns(years).value.1;
      var cap := CountryColumns(|countries|);
      var step := CountryStep(view, a, b, values, PairLabels(YearLabels(view, a, b)), cap < 2);
      assert r == LaidOut(step, countries, cap, |countries| - 1);
      LaidOutCounts(step, countries, cap);
    }
  }

  /** A completed layout whose last element closes the last row holds every element, in rows of one to
      `cap`, every row but the last full. */
  lemma LaidOutCounts<X, T>(build: (nat, X) -> Result<T>, xs: seq<X>, cap: nat)
    requires cap >= 1 && |xs| >= 1 && LaidOut(build, xs, cap, |xs| - 1).Success?
    ensures var rows := LaidOut(build, xs, cap, |xs| - 1).value;
      |Flatten(rows)| == |xs| && (forall row <- rows :: 1 <= |row| <= cap) &&
      cap * (|rows| - 1) < |xs| <= cap * |rows|
  {
    LaidOutAll(build, xs, cap);
    LaidOutRows(build, xs, cap, |xs| - 1);
    ChunkRowCount(MapEnumerate(build, xs).value, cap);
  }

  /** With the last element closing the last row, rows of `cap` elements: every row but the last is full,
      so there are as few rows as `cap` allows. */
  lemma ChunkRowCount<T>(xs: seq<T>, cap: nat)
    requires cap >= 1 && |xs| >= 1
    ensures var rows := Chunk(xs, cap, |xs| - 1).rows;
      cap * (|rows| - 1) < |xs| <= cap * |rows|
  {
    var init, x := xs[..|xs| - 1], xs[|xs| - 1];
    var before := Chunk(init, cap, |init|);
    ChunkClosedFull(init, cap, |init|);
    ChunkRowSizes(init, cap, |init|);
    ChunkKeepsOrder(init, cap, |init|);
    FullRowsCount(before.rows, cap);
    assert xs == init + [x];
    ChunkSnoc(init, x, cap, |init|);
    assert Chunk(xs, cap, |xs| - 1).rows == before.rows + [before.current + [x]];
  }

  /** When no index closes a row early, every closed row is full. */
  lemma {:induction false} ChunkClosedFull<T>(xs: seq<T>, cap: nat, last: int)
    requires cap >= 1 && (last < 0 || last >= |xs|)
    ensures forall row <- Chunk(xs, cap, last).rows :: |row| == cap
    decreases |xs|
  {
    if xs != [] {
      ChunkClosedFull(xs[..|xs| - 1], cap, last);
      ChunkRowSizes(xs[..|xs| - 1], cap, last);
    }
  }

  /** One more element of the layout loop. */
  lemma ChunkSnoc<T>(xs: seq<T>, x: T, cap: nat, last: int)
    ensures var before := Chunk(xs, cap, last);
      var current := before.current + [x];
      Chunk(xs + [x], cap, last) ==
        if |current| >= cap || |xs| == last then Chunking(before.rows + [current], []) else Chunking(before.rows, current)
  {
    assert (xs + [x])[..|xs|] == xs;
  }

  /** `_adjust_plots(countries, years, view_by, abs_rel_values)`: the year columns, then the figures of
      the chosen mode laid out in rows. */
  method AdjustPlots<V>(view: View<V>, countries: seq<string>, years: seq<int>, viewBy: string, values: string)
    returns (r: Result<seq<seq<Element<V>>>>)
    ensures r == Layout(view, countries, years, viewBy, values)
  {
    if |years| < 2 {
      return Failure(IndexError);
    }
    var a, b := FirstYearColumn + years[0] - FirstYear, FirstYearColumn + years[1] - FirstYear;
    YearColumnsOf(years);
    if viewBy == AgeGroup {
      r := LayOut<(string, string), Element<V>>(AgeStep(view, a, b, countries), AgeCodePairs(), AgeGroupColumns, |AgeCodePairs()| - 1);
      AgeGroupLayoutLink(view, countries, years, viewBy, values, a, b);
    } else if |countries| == 0 {
      r := Failure(ZeroDivisionError);
    } else {
      r := AdjustCountries(view, countries, a, b, values, CountryColumns(|countries|));
      CountryLink(view, countries, years, viewBy, values, a, b);
    }
  }

  /** Country mode of `_adjust_plots`, given the column cap: the bars' x labels, then one figure per
      country, the last country closing the last row. */
  method AdjustCountries<V>(view: View<V>, countries: seq<string>, a: int, b: int, values: string, maxColumns: nat)
    returns (r: Result<seq<seq<Element<V>>>>)
    ensures r == LaidOut(CountryStep(view, a, b, values, PairLabels(YearLabels(view, a, b)), maxColumns < 2),
      countries, maxColumns, |countries| - 1)
  {
    var xValues := PairXValues(YearLabels(view, a, b));
    r := LayOut(CountryStep(view, a, b, values, xValues, maxColumns < 2), countries, maxColumns, |countries| - 1);
  }

  /** The layout loop: each figure is built in turn and appended to the current row; a row holding `cap`
      figures, or the figure at index `last`, is moved to the result and a new row begins. */
  method LayOut<X, T>(build: (nat, X) -> Result<T>, xs: seq<X>, cap: nat, last: int) returns (r: Result<seq<seq<T>>>)
    ensures r == LaidOut(build, xs, cap, last)
  {
    var viewElements: seq<seq<T>> := [];
    var currentRow: seq<T> := [];
    var currentColumn: nat := 0;
    ghost var done: seq<T> := [];
    var index := 0;
    while index < |xs|
      invariant index <= |xs|
      invariant MapEnumerate(build, xs[..index]) == Success(done)
      invariant Chunk(done, cap, last) == Chunking(viewElements, currentRow)
      invariant currentColumn == |currentRow|
    {
      var element := build(index, xs[index]);
      MapEnumerateSnoc(build, xs, index, done);
      if element.Failure? {
        MapEnumeratePrefixFailure(build, xs, index + 1);
        return Failure(element.error);
      }
      ChunkSnoc(done, element.value, cap, last);
      done := done + [element.value];
      currentRow := currentRow + [element.value];
      currentColumn := currentColumn + 1;
      if currentColumn >= cap || index == last {
        viewElements := viewElements + [currentRow];
        currentRow := [];
        currentColumn := 0;
      }
      index := index + 1;
    }
    assert xs[..index] == xs;
    return Success(viewElements);
  }

  /** The x labels of a country's bars, built label by label. */
  method PairXValues(columns: seq<string>) returns (xValues: seq<string>)
    ensures xValues == PairLabels(columns)
  {
    xValues := [];
    var j := 0;
    while j < |columns|
      invariant j <= |columns| && xValues == PairLabels(columns[..j])
    {
      assert columns[..j + 1][..j] == columns[..j];
      xValues := xValues + [columns[j] + ", female"];
      xValues := xValues + [columns[j] + ", male"];
      j := j + 1;
    }
    assert columns[..j] == columns;
  }

  // ---------------------------------------------------------------------------
  // What the layout shows

  /** An age band's figure: registered under the female code, titled by the female indicator's name, with
      the `n` female lines of the countries in order, then their `n` male lines. */
  lemma AgeGroupElementShape<V>(view: View<V>, codes: (string, string), a: int, b: int, countries: seq<string>)
    requires AgeGroupElement(view, codes, a, b, countries).Success?
    ensures var e := AgeGroupElement(view, codes, a, b, countries).value;
      e.id == codes.0 && e.graph.Lines? && e.graph.title == IndicatorTitle(view.female, codes.0).value &&
      e.graph.lines == AgeLines(view.female, codes.0, a, b, countries, ", female").value
                     + AgeLines(view.male, codes.1, a, b, countries, ", male").value
  {
  }

  /** In an age band's figure the `i`-th female and the `i`-th male line are named by the `i`-th country,
      share the colour `i mod 10`, and are dotted. */
  lemma AgeGroupLines<V>(view: View<V>, codes: (string, string), a: int, b: int, countries: seq<string>, i: nat)
    requires AgeGroupElement(view, codes, a, b, countries).Success? && i < |countries|
    ensures var lines := AgeGroupElement(view, codes, a, b, countries).value.graph.lines;
      |lines| == |countries| + |countries| &&
      lines[i].name == countries[i] + ", female" && lines[|countries| + i].name == countries[i] + ", male" &&
      lines[i].color == lines[|countries| + i].color == Some(i % PaletteSize) &&
      lines[i].dash == lines[|countries| + i].dash == Some(Dot)
  {
    AgeGroupElementShape(view, codes, a, b, countries);
    var female := AgeLines(view.female, codes.0, a, b, countries, ", female").value;
    var male := AgeLines(view.male, codes.1, a, b, countries, ", male").value;
    assert AgeSeries(view.female, codes.0, a, b, i, countries[i], ", female") == Success(female[i]);
    assert AgeSeries(view.male, codes.1, a, b, i, countries[i], ", male") == Success(male[i]);
  }

  /** `AgeCodePairs` pairs the `k`-th female code with the `k`-th male code, for the seventeen bands. */
  lemma AgeCodePairsAt()
    ensures |AgeCodePairs()| == 17
    ensures forall k :: 0 <= k < 17 ==> AgeCodePairs()[k] == (AgeCodes(Female, "")[k], AgeCodes(Male, "")[k])
  {
    AgeCodesAt(Female, "");
    AgeCodesAt(Male, "");
  }

  /** A completed layout is the chunking of the built elements. */
  lemma LaidOutRows<X, T>(build: (nat, X) -> Result<T>, xs: seq<X>, cap: nat, last: int)
    requires LaidOut(build, xs, cap, last).Success?
    ensures MapEnumerate(build, xs).Success?
    ensures LaidOut(build, xs, cap, last).value == Chunk(MapEnumerate(build, xs).value, cap, last).rows
  {
  }

  /** When the last element closes the last row, the rows hold every figure `build` makes, in order, and
      no row holds more than `cap`. */
  lemma LaidOutAll<X, T>(build: (nat, X) -> Result<T>, xs: seq<X>, cap: nat)
    requires cap >= 1 && LaidOut(build, xs, cap, |xs| - 1).Success?
    ensures var rows := LaidOut(build, xs, cap, |xs| - 1).value;
      (forall row <- rows :: 1 <= |row| <= cap) && |Flatten(rows)| == |xs|
    ensures var es := Flatten(LaidOut(build, xs, cap, |xs| - 1).value);
      forall i :: 0 <= i < |xs| ==> build(i, xs[i]) == Success(es[i])
  {
    LaidOutRows(build, xs, cap, |xs| - 1);
    MapEnumerateAt(build, xs);
    var es := MapEnumerate(build, xs).value;
    ChunkLastFlushes(es, cap, |xs| - 1);
    ChunkRowSizes(es, cap, |xs| - 1);
  }


  /** In age-group mode the layout is the age-band figures laid out in rows of four. */
  lemma AgeGroupLink<V>(view: View<V>, countries: seq<string>, years: seq<int>, values: string, last: int, a: int, b: int)
    requires YearColumns(years) == Success((a, b))
    ensures Arrange(view, countries, years, AgeGroup, values, last) == LaidOut(AgeStep(view, a, b, countries), AgeCodePairs(), 4, last)
  {
  }

  /** In age-group mode the layout is the age-band figures laid out in rows of four, the last one closing
      the last row. */
  lemma AgeGroupLayoutLink<V>(view: View<V>, countries: seq<string>, years: seq<int>, viewBy: string, values: string, a: int, b: int)
    requires YearColumns(years) == Success((a, b)) && viewBy == AgeGroup
    ensures Layout(view, countries, years, viewBy, values) ==
      LaidOut(AgeStep(view, a, b, countries), AgeCodePairs(), AgeGroupColumns, |AgeCodePairs()| - 1)
  {
    AgeGroupLink(view, countries, years, values, |AgeCodePairs()| - 1, a, b);
  }

  /** In country mode with countries selected the layout is the countries' figures laid out in rows of
      `CountryColumns`. */
  lemma CountryLink<V>(view: View<V>, countries: seq<string>, years: seq<int>, viewBy: string, values: string, a: int, b: int)
    requires YearColumns(years) == Success((a, b)) && viewBy != AgeGroup && |countries| >= 1
    ensures var cap := CountryColumns(|countries|);
      Layout(view, countries, years, viewBy, values) ==
        LaidOut(CountryStep(view, a, b, values, PairLabels(YearLabels(view, a, b)), cap < 2), countries, cap, |countries| - 1)
  {
  }

  /** Age-group mode shows all seventeen age-band figures in band order, in rows of one to four, whatever
      the absolute/relative setting; the `k`-th is registered under the `k`-th female code. */
  lemma AgeGroupFigures<V>(view: View<V>, countries: seq<string>, years: seq<int>, values: string, other: string)
    requires Layout(view, countries, years, AgeGroup, values).Success?
    ensures Layout(view, countries, years, AgeGroup, other) == Layout(view, countries, years, AgeGroup, values)
    ensures |years| >= 2
    ensures var rows := Layout(view, countries, years, AgeGroup, values).value;
      (forall row <- rows :: 1 <= |row| <= AgeGroupColumns) && |Flatten(rows)| == |AgeCodePairs()|
    ensures var a, b := YearColumns(years).value.0, YearColumns(years).value.1;
      var es := Flatten(Layout(view, countries, years, AgeGroup, values).value);
      forall k :: 0 <= k < |es| ==>
        AgeGroupElement(view, AgeCodePairs()[k], a, b, countries) == Success(es[k]) && es[k].id == AgeCodePairs()[k].0
  {
    var a, b := YearColumns(years).value.0, YearColumns(years).value.1;
    AgeGroupLink(view, countries, years, values, |AgeCodePairs()| - 1, a, b);
    AgeGroupLink(view, countries, years, other, |AgeCodePairs()| - 1, a, b);
    AgeStepFigures(view, countries, a, b);
  }

  /** The age-band figures for fixed year positions, laid out with the end-of-list flush: rows of one to four
      holding the seventeen figures in band order. */
  lemma AgeStepFigures<V>(view: View<V>, countries: seq<string>, a: int, b: int)
    requires LaidOut(AgeStep(view, a, b, countries), AgeCodePairs(), 4, |AgeCodePairs()| - 1).Success?
    ensures var rows := LaidOut(AgeStep(view, a, b, countries), AgeCodePairs(), 4, |AgeCodePairs()| - 1).value;
      (forall row <- rows :: 1 <= |row| <= AgeGroupColumns) && |Flatten(rows)| == |AgeCodePairs()|
    ensures var es := Flatten(LaidOut(AgeStep(view, a, b, countries), AgeCodePairs(), 4, |AgeCodePairs()| - 1).value);
      forall k :: 0 <= k < |es| ==>
        AgeGroupElement(view, AgeCodePairs()[k], a, b, countries) == Success(es[k]) && es[k].id == AgeCodePairs()[k].0
  {
    var pairs := AgeCodePairs();
    AgeCodePairsAt();
    LaidOutAll(AgeStep(view, a, b, countries), pairs, 4);
    var es := Flatten(LaidOut(AgeStep(view, a, b, countries), pairs, 4, |pairs| - 1).value);
    forall k | 0 <= k < |es|
      ensures AgeGroupElement(view, pairs[k], a, b, countries) == Success(es[k]) && es[k].id == AgeCodePairs()[k].0
    {
      assert AgeStep(view, a, b, countries)(k, pairs[k]) == Success(es[k]);
      AgeGroupElementShape(view, pairs[k], a, b, countries);
    }
  }


  /** Age-group mode draws its figures exactly when at least two years are selected and, for every band,
      every selected country has a row of the female code and of the male code, and the female table holds
      each female code (otherwise an `IndexError`). */
  lemma AgeGroupLayoutSucceeds<V>(view: View<V>, countries: seq<string>, years: seq<int>, values: string)
    ensures Layout(view, countries, years, AgeGroup, values).Success? <==>
      |years| >= 2 && AllBandRows(view, countries)
  {
    if |years| >= 2 {
      var a, b := FirstYearColumn + years[0] - FirstYear, FirstYearColumn + years[1] - FirstYear;
      YearColumnsOf(years);
      AgeGroupLayoutLink(view, countries, years, AgeGroup, values, a, b);
      AgeStepSucceeds(view, countries, a, b);
    }
  }

  /** The age-band figures for fixed year positions can all be built exactly when every band has a row for
      each country in both tables and a name row in the female table. */
  lemma AgeStepSucceeds<V>(view: View<V>, countries: seq<string>, a: int, b: int)
    ensures LaidOut(AgeStep(view, a, b, countries), AgeCodePairs(), AgeGroupColumns, |AgeCodePairs()| - 1).Success? <==>
      AllBandRows(view, countries)
  {
    var pairs := AgeCodePairs();
    MapEnumerateAt(AgeStep(view, a, b, countries), pairs);
    forall k | 0 <= k < |pairs|
      ensures AgeStep(view, a, b, countries)(k, pairs[k]) == AgeGroupElement(view, pairs[k], a, b, countries)
    {
    }
  }



  /** Country mode shows one stacked-bar figure per selected country, in order, in rows of one to
      `CountryColumns` figures; each is titled by its country, shows its legend exactly when at most two
      countries are selected, and has seventeen bars over the paired year labels of the window. */
  lemma CountryFigures<V>(view: View<V>, countries: seq<string>, years: seq<int>, viewBy: string, values: string)
    requires viewBy != AgeGroup && Layout(view, countries, years, viewBy, values).Success?
    ensures |years| >= 2 && |countries| >= 1
    ensures var rows := Layout(view, countries, years, viewBy, values).value;
      (forall row <- rows :: 1 <= |row| <= CountryColumns(|countries|)) && |Flatten(rows)| == |countries|
    ensures var a, b := YearColumns(years).value.0, YearColumns(years).value.1;
      var es := Flatten(Layout(view, countries, years, viewBy, values).value);
      forall i :: 0 <= i < |es| ==>
        es[i].id == countries[i] && es[i].graph.Bars? && es[i].graph.title == countries[i] &&
        (es[i].graph.showLegend <==> |countries| <= 2) && |es[i].graph.bars| == 17 &&
        forall bar <- es[i].graph.bars :: bar.x == PairLabels(YearLabels(view, a, b))
  {
    var a, b := YearColumns(years).value.0, YearColumns(years).value.1;
    CountryLink(view, countries, years, viewBy, values, a, b);
    CountryStepFigures(view, countries, a, b, values);
  }

  /** The country figures for fixed year positions, laid out with the end-of-list flush: one figure per
      country, in order, with its title, legend rule and bars. */
  lemma CountryStepFigures<V>(view: View<V>, countries: seq<string>, a: int, b: int, values: string)
    requires |countries| >= 1
    requires var cap := CountryColumns(|countries|);
      LaidOut(CountryStep(view, a, b, values, PairLabels(YearLabels(view, a, b)), cap < 2), countries, cap, |countries| - 1).Success?
    ensures var cap := CountryColumns(|countries|);
      var es := Flatten(LaidOut(CountryStep(view, a, b, values, PairLabels(YearLabels(view, a, b)), cap < 2), countries, cap, |countries| - 1).value);
      |es| == |countries| &&
      forall i :: 0 <= i < |es| ==>
        es[i].id == countries[i] && es[i].graph.Bars? && es[i].graph.title == countries[i] &&
        (es[i].graph.showLegend <==> |countries| <= 2) && |es[i].graph.bars| == 17 &&
        forall bar <- es[i].graph.bars :: bar.x == PairLabels(YearLabels(view, a, b))
  {
    var cap := CountryColumns(|countries|);
    var step := CountryStep(view, a, b, values, PairLabels(YearLabels(view, a, b)), cap < 2);
    LaidOutAll(step, countries, cap);
    var es := Flatten(LaidOut(step, countries, cap, |countries| - 1).value);
    forall i | 0 <= i < |es|
      ensures es[i].id == countries[i] && es[i].graph.Bars? && es[i].graph.title == countries[i] &&
        (es[i].graph.showLegend <==> |countries| <= 2) && |es[i].graph.bars| == 17 &&
        forall bar <- es[i].graph.bars :: bar.x == PairLabels(YearLabels(view, a, b))
    {
      assert step(i, countries[i]) == Success(es[i]);
      CountryElementFacts(view, countries[i], a, b, values, PairLabels(YearLabels(view, a, b)), cap < 2, es[i]);
    }
  }

  lemma CountryElementFacts<V>(view: View<V>, country: string, a: int, b: int, values: string, x: seq<string>, legend: bool, e: Element<V>)
    requires CountryElement(view, country, a, b, values, x, legend) == Success(e)
    ensures e.id == country && e.graph.Bars? && e.graph.title == country && e.graph.showLegend == legend
    ensures |e.graph.bars| == 17 && forall bar <- e.graph.bars :: bar.x == x
  {
  }

  /** When no column of the table is empty and the year columns are labelled 1960, 1961, ..., a line's x is
      the labels of the selected years from the first up to, but not including, the last. */
  lemma AgeSeriesYears<V>(t: Table<V>, code: string, y0: nat, y1: nat, i: nat, country: string, suffix: string)
    requires YearLabelled(t.columns) && forall j :: 0 <= j < |t.columns| ==> HasValue(t.rows, j)
    requires FirstYear <= y0 <= y1 && FirstYearColumn + y1 - FirstYear <= |t.columns|
    requires HasRow(t, country, Some(code))
    ensures YearColumns([y0, y1]) == Success((FirstYearColumn + y0 - FirstYear, FirstYearColumn + y1 - FirstYear))
    ensures var x := AgeSeries(t, code, FirstYearColumn + y0 - FirstYear, FirstYearColumn + y1 - FirstYear, i, country, suffix).value.x;
      |x| == y1 - y0 && (forall k :: 0 <= k < |x| ==> x[k] == Str(y0 + k)) && Str(y1) !in x
  {
    YearWindow(t.columns, y0, y1);
    NoEmptyColumnDropped(t);
    var x := AgeSeries(t, code, FirstYearColumn + y0 - FirstYear, FirstYearColumn + y1 - FirstYear, i, country, suffix).value.x;
    assert x == Window(t.columns, y0, y1);
  }

  /** A table none of whose columns is empty keeps all its columns. */
  lemma NoEmptyColumnDropped<V>(t: Table<V>)
    requires forall j :: 0 <= j < |t.columns| ==> HasValue(t.rows, j)
    ensures DropEmptyColumns(t).columns == t.columns
  {
    CompressAllTrue(t.columns, Mask(t));
  }

  // ---------------------------------------------------------------------------
  // The end-of-list flush of the age-group loop

  /** As written, with a female table of more than seventeen rows (any dataset with two or more countries)
      the index test never fires: the four full rows are emitted and the last band's figure, the "80UP" one,
      stays in the unfinished row and is never shown. */
  lemma AsWrittenDropsLastBand<V>(view: View<V>, countries: seq<string>, years: seq<int>, values: string)
    requires LayoutAsWritten(view, countries, years, AgeGroup, values).Success?
    requires |view.female.rows| > 17
    ensures var rows := LayoutAsWritten(view, countries, years, AgeGroup, values).value;
      |rows| == 4 && |Flatten(rows)| == 16 && forall e <- Flatten(rows) :: e.id != AgeCodes(Female, "")[16]
  {
    var a, b := YearColumns(years).value.0, YearColumns(years).value.1;
    var pairs := AgeCodePairs();
    var step := AgeStep(view, a, b, countries);
    var last := |view.female.rows| - 1;
    AgeCodePairsAt();
    AgeGroupLink(view, countries, years, values, last, a, b);
    MapEnumerateAt(step, pairs);
    var es := MapEnumerate(step, pairs).value;
    var c := Chunk(es, AgeGroupColumns, last);
    ChunkFullRows(es, last);
    ChunkKeepsOrder(es, AgeGroupColumns, last);
    assert |c.current| == 1;
    FullRowsCount(c.rows, 4);
    assert Flatten(c.rows) == es[..16];
    AgeCodesDistinct(Female, "");
    forall e | e in Flatten(c.rows)
      ensures e.id != AgeCodes(Female, "")[16]
    {
      var k :| 0 <= k < 16 && es[k] == e;
      assert step(k, pairs[k]) == Success(es[k]);
      AgeGroupElementShape(view, pairs[k], a, b, countries);
    }
  }

  /** Rows of `cap` elements each hold `cap` elements per row. */
  lemma {:induction false} FullRowsCount<T>(rows: seq<seq<T>>, cap: nat)
    requires forall row <- rows :: |row| == cap
    ensures |Flatten(rows)| == cap * |rows|
  {
    if rows != [] {
      var init, last := rows[..|rows| - 1], rows[|rows| - 1];
      FullRowsCount(init, cap);
      assert last in rows;
      assert Flatten(rows) == Flatten(init) + last;
      MulSucc(cap, |init|);
    }
  }

  lemma MulSucc(a: nat, n: nat)
    ensures a * (n + 1) == a * n + a
  {
  }

  /** Corrected, the last band's figure closes the last row, so all seventeen figures are shown, the
      "80UP" one last, in five rows. */
  lemma LayoutShowsLastBand<V>(view: View<V>, countries: seq<string>, years: seq<int>, values: string)
    requires Layout(view, countries, years, AgeGroup, values).Success?
    ensures var rows := Layout(view, countries, years, AgeGroup, values).value;
      |rows| == 5 && |Flatten(rows)| == 17 && Flatten(rows)[16].id == AgeCodes(Female, "")[16]
  {
    var rows := Layout(view, countries, years, AgeGroup, values).value;
    var a, b := YearColumns(years).value.0, YearColumns(years).value.1;
    var pairs := AgeCodePairs();
    AgeCodePairsAt();
    AgeGroupFigures(view, countries, years, values, values);
    AgeGroupLink(view, countries, years, values, |pairs| - 1, a, b);
    var es := MapEnumerate(AgeStep(view, a, b, countries), pairs).value;
    ChunkSeventeen(es);
  }

  /** Seventeen elements in rows of four, the last one closing its row: four full rows and a row of one. */
  lemma ChunkSeventeen<T>(xs: seq<T>)
    requires |xs| == 17
    ensures |Chunk(xs, 4, 16).rows| == 5
  {
    var init := xs[..16];
    ChunkFullRows(init, 16);
    ChunkKeepsOrder(init, 4, 16);
    FullRowsCount(Chunk(init, 4, 16).rows, 4);
    assert xs == init + [xs[16]];
    ChunkSnoc(init, xs[16], 4, 16);
  }
}
