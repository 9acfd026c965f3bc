/** The shared "Filter" settings group: the country selector and the year range slider, with the default
    selection derived from the dataset, and the two callbacks that copy the selection into the stores. */
module SharedFilter {
  import opened Python
  import opened Tables

  /** One entry of a selector: what it shows and what it selects. */
  datatype SelectOption<V> = SelectOption(caption: Cell<V>, value: Cell<V>)

  /** A multi-select list: its options, the selected values and the number of visible lines. */
  datatype CountrySelect<V> = CountrySelect(options: seq<SelectOption<V>>, value: seq<Cell<V>>, size: nat)

  /** A range slider over years: the labelled marks (label, year), the bounds and the selected range. */
  datatype YearSlider = YearSlider(marks: seq<(string, int)>, min: int, max: int, value: (int, int))

  /** The two controls of the group, in layout order. */
  datatype Controls<V> = Controls(countries: CountrySelect<V>, years: YearSlider)

  /** The most lines a country list shows at once. */
  const MaxListSize: nat := 15

  /** A mark every this many year columns. */
  const MarkStep: nat := 25

  /** `[{"label": i, "value": i} for i in countries]`: one option per country, showing and selecting it. */
  function Options<V>(countries: seq<Cell<V>>): (r: seq<SelectOption<V>>)
    ensures |r| == |countries|
    ensures forall i :: 0 <= i < |r| ==> r[i].caption == countries[i] && r[i].value == countries[i]
  {
    seq(|countries|, i requires 0 <= i < |countries| => SelectOption(countries[i], countries[i]))
  }

  /** `min(15, len(countries))`: every country visible up to fifteen. */
  function ListSize(n: nat): (size: nat)
    ensures size <= MaxListSize && size <= n
    ensures size == MaxListSize || size == n
  {
    Min(MaxListSize, n)
  }

  /** What the group keeps from the dataset. */
  datatype Filter<V> = Filter(countries: seq<Cell<V>>, years: seq<string>)

  /** The constructor: the distinct country names in order of first occurrence, and every column label
      from the fifth on. */
  function Init<V(==)>(df: Dataset<V>): (f: Filter<V>)
    ensures f.years == df.columns[FirstYearColumn..]
    ensures NoDuplicates(f.countries)
    ensures forall i :: 0 <= i < |df.rows| ==> df.rows[i][CountryNameColumn] in f.countries
    ensures forall c <- f.countries :: exists i :: 0 <= i < |df.rows| && df.rows[i][CountryNameColumn] == c
  {
    Filter(DistinctCountries(df), From(df.columns, FirstYearColumn))
  }

  /** The countries come in the order in which the dataset first names them. */
  lemma InitCountriesOrder<V>(df: Dataset<V>)
    ensures var names, cs := Column(df, CountryNameColumn), Init(df).countries;
      cs == Distinct(names) &&
      forall i, j :: 0 <= i < j < |cs| ==> FirstIndex(names, cs[i]) < FirstIndex(names, cs[j])
  {
    DistinctOrder(Column(df, CountryNameColumn));
  }

  /** A mark: the label and its value as a year; a `ValueError` for a label that is not an integer. */
  function Mark(text: string): (r: Result<(string, int)>)
    ensures r.Success? <==> ParseInt(text).Success?
    ensures r.Success? ==> r.value == (text, ParseInt(text).value)
    ensures r.Failure? ==> r.error == ValueError
  {
    var year :- ParseInt(text);
    Success((text, year))
  }

  /** Every 25th year label, starting with the first, reads as an integer. */
  predicate MarkLabelsParse(years: seq<string>) {
    var labels := EveryNth(years, MarkStep);
    forall j :: 0 <= j < |labels| ==> ParseInt(labels[j]).Success?
  }

  /** `{y: int(y) for y in years[::25]}`: a mark at every 25th year label, starting with the first. */
  function Marks(years: seq<string>): (r: Result<seq<(string, int)>>)
    ensures r.Success? <==> MarkLabelsParse(years)
    ensures r.Failure? ==> r.error == ValueError
    ensures r.Success? ==> |r.value| == |EveryNth(years, MarkStep)|
    ensures r.Success? ==> forall j :: 0 <= j < |r.value| ==>
      r.value[j] == (EveryNth(years, MarkStep)[j], ParseInt(EveryNth(years, MarkStep)[j]).value)
  {
    var labels := EveryNth(years, MarkStep);
    var f := (j: nat, y: string) => Mark(y);
    MapEnumerateAt(f, labels);
    assert MarkLabelsParse(years) <==> forall j :: 0 <= j < |labels| ==> f(j, labels[j]).Success?;
    MapEnumerate(f, labels)
  }

  /** `layout()`: the selector with the first country selected, and the slider from the first to the last
      year with the whole range selected. `[0]` of an empty country or year list raises an `IndexError`,
      `int()` of a label that is not a number a `ValueError`. */
  function Layout<V>(f: Filter<V>): (r: Result<Controls<V>>)
    ensures |f.countries| == 0 ==> r == Failure(IndexError)
    ensures r.Success? <==>
      |f.countries| > 0 && |f.years| > 0 &&
      MarkLabelsParse(f.years) && ParseInt(f.years[|f.years| - 1]).Success?
    ensures r.Failure? ==> r.error == IndexError || r.error == ValueError
    ensures r.Success? ==>
      var select := r.value.countries;
      select.options == Options(f.countries) && select.value == [f.countries[0]] && select.size == ListSize(|f.countries|)
    ensures r.Success? ==>
      var slider := r.value.years;
      Success(slider.min) == ParseInt(f.years[0]) && Success(slider.max) == ParseInt(f.years[|f.years| - 1]) &&
      slider.value == (slider.min, slider.max) && Success(slider.marks) == Marks(f.years)
  {
    if |f.countries| == 0 then Failure(IndexError)
    else
      var select := CountrySelect(Options(f.countries), [f.countries[0]], ListSize(|f.countries|));
      var marks :- Marks(f.years);
      if |f.years| == 0 then Failure(IndexError)
      else
        // `years[0]` carries the first mark, so it is a number here.
        assert EveryNth(f.years, MarkStep)[0] == f.years[0];
        var first := ParseInt(f.years[0]).value;
        var last :- ParseInt(f.years[|f.years| - 1]);
        Success(Controls(select, YearSlider(marks, first, last, (first, last))))
  }

  /** For a dataset with countries and year columns labelled 1960, 1961, ...: the slider runs from 1960 to
      the last year, the whole range is selected, and the `j`-th mark is the year `1960 + 25 j`. */
  lemma LayoutOfYearColumns<V>(df: Dataset<V>)
    requires YearLabelled(df.columns) && |df.columns| > FirstYearColumn && |df.rows| > 0
    ensures Layout(Init(df)).Success?
    ensures var slider := Layout(Init(df)).value.years;
      slider.min == FirstYear && slider.max == FirstYear + |df.columns| - FirstYearColumn - 1 &&
      slider.value == (slider.min, slider.max)
    ensures var slider := Layout(Init(df)).value.years;
      forall j :: 0 <= j < |slider.marks| ==> slider.marks[j] == (Str(FirstYear + j * MarkStep), FirstYear + j * MarkStep)
  {
    var f := Init(df);
    assert df.rows[0][CountryNameColumn] in f.countries;
    var years := f.years;
    forall k | 0 <= k < |years|
      ensures years[k] == Str(FirstYear + k)
    {
      assert years[k] == df.columns[FirstYearColumn + k];
    }
    MarksOfYears(years);
    var last := |years| - 1;
    ParseStr(FirstYear);
    ParseStr(FirstYear + last);
    assert ParseInt(years[0]) == Success(FirstYear);
    assert ParseInt(years[last]) == Success(FirstYear + last);
  }

  /** Over year labels 1960, 1961, ...: every mark is a number, and the `j`-th is the year `1960 + 25 j`. */
  lemma MarksOfYears(years: seq<string>)
    requires forall k :: 0 <= k < |years| ==> years[k] == Str(FirstYear + k)
    ensures Marks(years).Success?
    ensures forall j :: 0 <= j < |Marks(years).value| ==>
      Marks(years).value[j] == (Str(FirstYear + j * MarkStep), FirstYear + j * MarkStep)
  {
    var labels := EveryNth(years, MarkStep);
    forall j | 0 <= j < |labels|
      ensures labels[j] == Str(FirstYear + j * MarkStep) && ParseInt(labels[j]) == Success(FirstYear + j * MarkStep)
    {
      EveryNthAt(years, MarkStep, j);
      var k := j * MarkStep;
      assert labels[j] == years[k] == Str(FirstYear + k);
      ParseStr(FirstYear + k);
    }
    assert MarkLabelsParse(years);
    var marks := Marks(years).value;
    forall j | 0 <= j < |marks|
      ensures marks[j] == (Str(FirstYear + j * MarkStep), FirstYear + j * MarkStep)
    {
      assert marks[j] == (labels[j], ParseInt(labels[j]).value);
    }
  }

  /** `_set_countries`: the selected countries go to the store unchanged. */
  function SetCountries(countries: seq<string>): (stored: seq<string>)
    ensures stored == countries
  {
    countries
  }

  /** `_set_years`: the selected year range goes to the store unchanged. */
  function SetYears(years: seq<int>): (stored: seq<int>)
    ensures stored == years
  {
    years
  }
}
