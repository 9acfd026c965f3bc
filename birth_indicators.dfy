/** The "Birth indicators" view: four line charts (crude birth rate, fertility rate, life expectancy at
    birth, sex ratio at birth) over the selected countries. */
module BirthIndicators {
  import opened Python
  import opened Tables
  import opened Charts

  const BirthRateCode: string := "SP.DYN.CBRT.IN"
  const FertilityRateCode: string := "SP.DYN.TFRT.IN"
  const LifeExpectancyCode: string := "SP.DYN.LE00.IN"
  const LifeExpectancyFemaleCode: string := "SP.DYN.LE00.FE.IN"
  const LifeExpectancyMaleCode: string := "SP.DYN.LE00.MA.IN"
  const SexRatioCode: string := "SP.POP.BRTH.MF"
  const LifeExpectancyCodes: seq<string> := [LifeExpectancyCode, LifeExpectancyFemaleCode, LifeExpectancyMaleCode]

  const BirthRateTitle: string := "Birth rate, crude (per 1,000 people)"
  const FertilityRateTitle: string := "Fertility rate, total (births per woman)"
  const LifeExpectancyTitle: string := "Life expectancy at birth (years)"
  const SexRatioTitle: string := "Sex ratio at birth (male births per female births)"

  /** The tables the view keeps from the dataset. */
  datatype View<V> = View(birthRates: Dataset<V>, fertilityRates: Dataset<V>, lifeExpectancy: Dataset<V>, sexRatio: Dataset<V>)

  /** The constructor: each chart's table is the dataset's rows of that chart's indicator codes. */
  function Init<V>(df: Dataset<V>): (view: View<V>)
    ensures CodeSelection(view.birthRates, df, Equals(BirthRateCode))
    ensures CodeSelection(view.fertilityRates, df, Equals(FertilityRateCode))
    ensures CodeSelection(view.lifeExpectancy, df, IsIn(LifeExpectancyCodes))
    ensures CodeSelection(view.sexRatio, df, Equals(SexRatioCode))
  {
    View(
      WhereData(df, IndicatorCodeColumn, Equals(BirthRateCode)),
      WhereData(df, IndicatorCodeColumn, Equals(FertilityRateCode)),
      WhereData(df, IndicatorCodeColumn, IsIn(LifeExpectancyCodes)),
      WhereData(df, IndicatorCodeColumn, Equals(SexRatioCode)))
  }

  const FemaleLifeExpectancy: Variant := Variant(Some(LifeExpectancyFemaleCode), false, ", female", true, Some(Dashed))
  const MaleLifeExpectancy: Variant := Variant(Some(LifeExpectancyMaleCode), false, ", male", true, Some(Dot))
  const TotalLifeExpectancy: Variant := Variant(Some(LifeExpectancyCode), false, ", total", true, None)

  /** The life-expectancy chart's blocks: all female series, then all male, then all total. */
  const LifeExpectancyVariants: seq<Variant> := [FemaleLifeExpectancy, MaleLifeExpectancy, TotalLifeExpectancy]

  /** The four figures, in the order the callback returns them. */
  datatype Plots<V> = Plots(birthRates: Figure<V>, fertilityRates: Figure<V>, lifeExpectancy: Figure<V>, sexRatio: Figure<V>)

  /** `_update_plots(countries, years)`: the four figures, or the `IndexError` raised by a country without a row. */
  function UpdatePlots<V>(view: View<V>, countries: seq<string>, years: seq<int>): (r: Result<Plots<V>>)
    ensures r.Failure? ==> r.error == IndexError
    ensures r.Success? ==>
      r.value.birthRates.title == BirthRateTitle && r.value.fertilityRates.title == FertilityRateTitle &&
      r.value.lifeExpectancy.title == LifeExpectancyTitle && r.value.sexRatio.title == SexRatioTitle
    ensures r.Success? ==>
      r.value.birthRates.xRange == years && r.value.fertilityRates.xRange == years &&
      r.value.lifeExpectancy.xRange == years && r.value.sexRatio.xRange == years
  {
    var birth :- LineChart(view.birthRates, [CountryLine], countries, BirthRateTitle, years);
    var fertility :- LineChart(view.fertilityRates, [CountryLine], countries, FertilityRateTitle, years);
    var life :- LineChart(view.lifeExpectancy, LifeExpectancyVariants, countries, LifeExpectancyTitle, years);
    var sex :- LineChart(view.sexRatio, [CountryLine], countries, SexRatioTitle, years);
    Success(Plots(birth, fertility, life, sex))
  }

  /** Each figure holds the series of its chart's variants, block by block. */
  lemma UpdatePlotsShow<V>(view: View<V>, countries: seq<string>, years: seq<int>)
    requires UpdatePlots(view, countries, years).Success?
    ensures var p := UpdatePlots(view, countries, years).value;
      Shows(p.birthRates.data, view.birthRates, [CountryLine], countries) &&
      Shows(p.fertilityRates.data, view.fertilityRates, [CountryLine], countries) &&
      Shows(p.lifeExpectancy.data, view.lifeExpectancy, LifeExpectancyVariants, countries) &&
      Shows(p.sexRatio.data, view.sexRatio, [CountryLine], countries)
  {
    LineChartShows(view.birthRates, [CountryLine], countries, BirthRateTitle, years);
    LineChartShows(view.fertilityRates, [CountryLine], countries, FertilityRateTitle, years);
    LineChartShows(view.lifeExpectancy, LifeExpectancyVariants, countries, LifeExpectancyTitle, years);
    LineChartShows(view.sexRatio, [CountryLine], countries, SexRatioTitle, years);
  }

  /** The charts are drawn exactly when the dataset has, for every selected country, a row of each of the six
      indicator codes (the three life-expectancy codes being those of `LifeExpectancyVariants`); otherwise
      `[0]` of an empty row list raises, and no empty series is produced. */
  lemma UpdatePlotsSucceeds<V>(df: Dataset<V>, countries: seq<string>, years: seq<int>)
    ensures UpdatePlots(Init(df), countries, years).Success? <==>
      (forall c <- countries :: HasRow(df, c, Some(BirthRateCode))) &&
      (forall c <- countries :: HasRow(df, c, Some(FertilityRateCode))) &&
      (forall v <- LifeExpectancyVariants, c <- countries :: HasRow(df, c, v.code)) &&
      (forall c <- countries :: HasRow(df, c, Some(SexRatioCode)))
  {
    UpdatePlotsCharts(Init(df), countries, years);
    BirthRateChartSucceeds(df, countries, years);
    FertilityRateChartSucceeds(df, countries, years);
    LifeExpectancyChartSucceeds(df, countries, years);
    SexRatioChartSucceeds(df, countries, years);
  }

  lemma BirthRateChartSucceeds<V>(df: Dataset<V>, countries: seq<string>, years: seq<int>)
    ensures LineChart(Init(df).birthRates, [CountryLine], countries, BirthRateTitle, years).Success? <==>
      (forall c <- countries :: HasRow(df, c, Some(BirthRateCode)))
  {
    SingleCodeChart(df, BirthRateCode, countries, BirthRateTitle, years);
  }

  lemma FertilityRateChartSucceeds<V>(df: Dataset<V>, countries: seq<string>, years: seq<int>)
    ensures LineChart(Init(df).fertilityRates, [CountryLine], countries, FertilityRateTitle, years).Success? <==>
      (forall c <- countries :: HasRow(df, c, Some(FertilityRateCode)))
  {
    SingleCodeChart(df, FertilityRateCode, countries, FertilityRateTitle, years);
  }

  lemma LifeExpectancyChartSucceeds<V>(df: Dataset<V>, countries: seq<string>, years: seq<int>)
    ensures LineChart(Init(df).lifeExpectancy, LifeExpectancyVariants, countries, LifeExpectancyTitle, years).Success? <==>
      (forall v <- LifeExpectancyVariants, c <- countries :: HasRow(df, c, v.code))
  {
    VariantChart(df, IsIn(LifeExpectancyCodes), LifeExpectancyVariants, countries, LifeExpectancyTitle, years);
  }

  lemma SexRatioChartSucceeds<V>(df: Dataset<V>, countries: seq<string>, years: seq<int>)
    ensures LineChart(Init(df).sexRatio, [CountryLine], countries, SexRatioTitle, years).Success? <==>
      (forall c <- countries :: HasRow(df, c, Some(SexRatioCode)))
  {
    SingleCodeChart(df, SexRatioCode, countries, SexRatioTitle, years);
  }

  lemma UpdatePlotsCharts<V>(view: View<V>, countries: seq<string>, years: seq<int>)
    ensures UpdatePlots(view, countries, years).Success? <==>
      LineChart(view.birthRates, [CountryLine], countries, BirthRateTitle, years).Success? &&
      LineChart(view.fertilityRates, [CountryLine], countries, FertilityRateTitle, years).Success? &&
      LineChart(view.lifeExpectancy, LifeExpectancyVariants, countries, LifeExpectancyTitle, years).Success? &&
      LineChart(view.sexRatio, [CountryLine], countries, SexRatioTitle, years).Success?
  {
  }

  /** Birth, fertility and sex-ratio charts: one series per selected country, in order, named by the country;
      a country with a single row gets exactly that row's values, with as many years as values. */
  lemma SingleIndicatorCharts<V>(view: View<V>, countries: seq<string>, years: seq<int>)
    requires UpdatePlots(view, countries, years).Success?
    ensures var p := UpdatePlots(view, countries, years).value;
      |p.birthRates.data| == |p.fertilityRates.data| == |p.sexRatio.data| == |countries|
    ensures var p := UpdatePlots(view, countries, years).value;
      forall i :: 0 <= i < |countries| ==>
        p.birthRates.data[i].name == p.fertilityRates.data[i].name == p.sexRatio.data[i].name == countries[i]
    ensures var p := UpdatePlots(view, countries, years).value;
      forall i :: 0 <= i < |countries| && |CountryRows(view.birthRates, countries[i]).rows| == 1 &&
        Labelled(CountryRows(view.birthRates, countries[i]).rows[0])
        ==> |p.birthRates.data[i].x| == |p.birthRates.data[i].y| && Missing !in p.birthRates.data[i].y
  {
    var p := UpdatePlots(view, countries, years).value;
    UpdatePlotsShow(view, countries, years);
    CountryLines(view.birthRates, countries, p.birthRates.data);
    CountryLines(view.fertilityRates, countries, p.fertilityRates.data);
    CountryLines(view.sexRatio, countries, p.sexRatio.data);
  }

  /** The life-expectancy figure is the chart of `LifeExpectancyVariants`. */
  lemma LifeExpectancyChart<V>(view: View<V>, countries: seq<string>, years: seq<int>)
    requires UpdatePlots(view, countries, years).Success?
    ensures LineChart(view.lifeExpectancy, LifeExpectancyVariants, countries, LifeExpectancyTitle, years).Success?
    ensures UpdatePlots(view, countries, years).value.lifeExpectancy ==
      LineChart(view.lifeExpectancy, LifeExpectancyVariants, countries, LifeExpectancyTitle, years).value
  {
  }

  /** What the three life-expectancy variants give the `i`-th country's series. */
  lemma LifeExpectancyStyles<V>(d: seq<Series<V>>, countries: seq<string>, i: nat)
    requires i < |countries| && |d| == |countries| + |countries| + |countries|
    requires Styled(d[i], LifeExpectancyVariants[0], i, countries[i])
    requires Styled(d[|countries| + i], LifeExpectancyVariants[1], i, countries[i])
    requires Styled(d[|countries| + |countries| + i], LifeExpectancyVariants[2], i, countries[i])
    ensures var n := |countries|;
      d[i].name == countries[i] + ", female" && d[n + i].name == countries[i] + ", male" &&
      d[n + n + i].name == countries[i] + ", total" &&
      d[i].dash == Some(Dashed) && d[n + i].dash == Some(Dot) && d[n + n + i].dash == None &&
      d[i].color == d[n + i].color == d[n + n + i].color == Some(i % PaletteSize)
  {
  }

  /** Life expectancy, country `i` of `n`: its female series at `i`, male at `n + i`, total at `2n + i`, all
      three coloured `i mod 10`; dashed, dotted and plain. */
  lemma LifeExpectancyAt<V>(view: View<V>, countries: seq<string>, years: seq<int>, i: nat)
    requires UpdatePlots(view, countries, years).Success? && i < |countries|
    ensures var d, n := UpdatePlots(view, countries, years).value.lifeExpectancy.data, |countries|;
      |d| == n + n + n &&
      d[i].name == countries[i] + ", female" && d[n + i].name == countries[i] + ", male" &&
      d[n + n + i].name == countries[i] + ", total" &&
      d[i].dash == Some(Dashed) && d[n + i].dash == Some(Dot) && d[n + n + i].dash == None &&
      d[i].color == d[n + i].color == d[n + n + i].color == Some(i % PaletteSize)
  {
    LifeExpectancyChart(view, countries, years);
    ThreeBlocksStyled(view.lifeExpectancy, LifeExpectancyVariants, countries, LifeExpectancyTitle, years, i);
    LifeExpectancyStyles(UpdatePlots(view, countries, years).value.lifeExpectancy.data, countries, i);
  }

  /** x of every life-expectancy series comes from all of the country's life-expectancy rows, y from the one
      row of its code: y is never longer than x. */
  lemma LifeExpectancyNoLongerThanX<V>(view: View<V>, countries: seq<string>, years: seq<int>, i: nat)
    requires UpdatePlots(view, countries, years).Success? && i < |countries|
    requires LabelsPresent(CountryRows(view.lifeExpectancy, countries[i]))
    ensures var d, n := UpdatePlots(view, countries, years).value.lifeExpectancy.data, |countries|;
      n + n + i < |d| &&
      |d[i].y| <= |d[i].x| && |d[n + i].y| <= |d[n + i].x| && |d[n + n + i].y| <= |d[n + n + i].x|
  {
    LifeExpectancyChart(view, countries, years);
    ThreeBlocksNoLongerThanX(view.lifeExpectancy, LifeExpectancyVariants, countries, LifeExpectancyTitle, years, i);
  }
}
