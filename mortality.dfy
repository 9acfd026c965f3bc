/** The "Mortality rates and number of deaths" view: five line charts (crude death rate, adult, infant,
    neonatal and under-five mortality) over the selected countries. */
module MortalityRates {
  import opened Python
  import opened Tables
  import opened Charts

  const DeathRateCode: string := "SP.DYN.CDRT.IN"
  const AdultFemaleCode: string := "SP.DYN.AMRT.FE"
  const AdultMaleCode: string := "SP.DYN.AMRT.MA"
  const InfantCode: string := "SP.DYN.IMRT.IN"
  const InfantFemaleCode: string := "SP.DYN.IMRT.FE.IN"
  const InfantMaleCode: string := "SP.DYN.IMRT.MA.IN"
  const NeonatalCode: string := "SH.DYN.NMRT"
  const UnderFiveCode: string := "SH.DYN.MORT"
  const UnderFiveFemaleCode: string := "SH.DYN.MORT.FE"
  const UnderFiveMaleCode: string := "SH.DYN.MORT.MA"

  const AdultCodes: seq<string> := [AdultFemaleCode, AdultMaleCode]
  const InfantCodes: seq<string> := [InfantCode, InfantFemaleCode, InfantMaleCode]
  const UnderFiveCodes: seq<string> := [UnderFiveCode, UnderFiveFemaleCode, UnderFiveMaleCode]

  const DeathRateTitle: string := "Death rate, crude (per 1,000 people)"
  const AdultTitle: string := "Mortality rate, adult (per 1,000 people of respective sex)"
  const InfantTitle: string := "Mortality rate, infant (per 1,000 live births)"
  const NeonatalTitle: string := "Mortality rate, neonatal (per 1,000 live births)"
  const UnderFiveTitle: string := "Mortality rate, under 5 years (per 1,000 live births)"

  /** The tables the view keeps from the dataset. */
  datatype View<V> = View(deathRates: Dataset<V>, adults: Dataset<V>, infants: Dataset<V>, neonatal: Dataset<V>,
                          underFive: Dataset<V>)

  /** The constructor: each chart's table is the dataset's rows of that chart's indicator codes. */
  function Init<V>(df: Dataset<V>): (view: View<V>)
    ensures CodeSelection(view.deathRates, df, Equals(DeathRateCode))
    ensures CodeSelection(view.adults, df, IsIn(AdultCodes))
    ensures CodeSelection(view.infants, df, IsIn(InfantCodes))
    ensures CodeSelection(view.neonatal, df, Equals(NeonatalCode))
    ensures CodeSelection(view.underFive, df, IsIn(UnderFiveCodes))
  {
    View(
      WhereData(df, IndicatorCodeColumn, Equals(DeathRateCode)),
      WhereData(df, IndicatorCodeColumn, IsIn(AdultCodes)),
      WhereData(df, IndicatorCodeColumn, IsIn(InfantCodes)),
      WhereData(df, IndicatorCodeColumn, Equals(NeonatalCode)),
      WhereData(df, IndicatorCodeColumn, IsIn(UnderFiveCodes)))
  }

  /** Adult mortality: female series dotted, male dashed (the reverse of the life-expectancy chart). */
  const AdultVariants: seq<Variant> := [
    Variant(Some(AdultFemaleCode), false, ", female", true, Some(Dot)),
    Variant(Some(AdultMaleCode), false, ", male", true, Some(Dashed))]

  const InfantVariants: seq<Variant> := [
    Variant(Some(InfantFemaleCode), false, ", female", true, Some(Dot)),
    Variant(Some(InfantMaleCode), false, ", male", true, Some(Dashed)),
    Variant(Some(InfantCode), false, ", total", true, None)]

  const UnderFiveVariants: seq<Variant> := [
    Variant(Some(UnderFiveFemaleCode), false, ", female", true, Some(Dot)),
    Variant(Some(UnderFiveMaleCode), false, ", male", true, Some(Dashed)),
    Variant(Some(UnderFiveCode), false, ", total", true, None)]

  /** The five figures, in the order the callback returns them. */
  datatype Plots<V> = Plots(deathRates: Figure<V>, adults: Figure<V>, infants: Figure<V>, neonatal: Figure<V>,
                            underFive: Figure<V>)

  /** `_update_plots(countries, years)`: the five figures, or the `IndexError` raised by a country without a row. */
  function UpdatePlots<V>(view: View<V>, countries: seq<string>, years: seq<int>): (r: Result<Plots<V>>)
    ensures r.Failure? ==> r.error == IndexError
    ensures r.Success? ==>
      r.value.deathRates.title == DeathRateTitle && r.value.adults.title == AdultTitle &&
      r.value.infants.title == InfantTitle && r.value.neonatal.title == NeonatalTitle &&
      r.value.underFive.title == UnderFiveTitle
    ensures r.Success? ==>
      r.value.deathRates.xRange == years && r.value.adults.xRange == years && r.value.infants.xRange == years &&
      r.value.neonatal.xRange == years && r.value.underFive.xRange == years
  {
    var death :- LineChart(view.deathRates, [CountryLine], countries, DeathRateTitle, years);
    var adults :- LineChart(view.adults, AdultVariants, countries, AdultTitle, years);
    var infants :- LineChart(view.infants, InfantVariants, countries, InfantTitle, years);
    var neonatal :- LineChart(view.neonatal, [CountryLine], countries, NeonatalTitle, years);
    var underFive :- LineChart(view.underFive, UnderFiveVariants, countries, UnderFiveTitle, years);
    Success(Plots(death, adults, infants, neonatal, underFive))
  }

  /** Each figure holds the series of its chart's variants, block by block. */
  lemma UpdatePlotsShow<V>(view: View<V>, countries: seq<string>, years: seq<int>)
    requires UpdatePlots(view, countries, years).Success?
    ensures var p := UpdatePlots(view, countries, years).value;
      Shows(p.deathRates.data, view.deathRates, [CountryLine], countries) &&
      Shows(p.adults.data, view.adults, AdultVariants, countries) &&
      Shows(p.infants.data, view.infants, InfantVariants, countries) &&
      Shows(p.neonatal.data, view.neonatal, [CountryLine], countries) &&
      Shows(p.underFive.data, view.underFive, UnderFiveVariants, countries)
  {
    LineChartShows(view.deathRates, [CountryLine], countries, DeathRateTitle, years);
    LineChartShows(view.adults, AdultVariants, countries, AdultTitle, years);
    LineChartShows(view.infants, InfantVariants, countries, InfantTitle, years);
    LineChartShows(view.neonatal, [CountryLine], countries, NeonatalTitle, years);
    LineChartShows(view.underFive, UnderFiveVariants, countries, UnderFiveTitle, years);
  }

  lemma UpdatePlotsCharts<V>(view: View<V>, countries: seq<string>, years: seq<int>)
    ensures UpdatePlots(view, countries, years).Success? <==>
      LineChart(view.deathRates, [CountryLine], countries, DeathRateTitle, years).Success? &&
      LineChart(view.adults, AdultVariants, countries, AdultTitle, years).Success? &&
      LineChart(view.infants, InfantVariants, countries, InfantTitle, years).Success? &&
      LineChart(view.neonatal, [CountryLine], countries, NeonatalTitle, years).Success? &&
      LineChart(view.underFive, UnderFiveVariants, countries, UnderFiveTitle, years).Success?
  {
  }

  /** The charts are drawn exactly when the dataset has, for every selected country, a row of each of the ten
      indicator codes; otherwise `[0]` of an empty row list raises. */
  lemma UpdatePlotsSucceeds<V>(df: Dataset<V>, countries: seq<string>, years: seq<int>)
    ensures UpdatePlots(Init(df), countries, years).Success? <==>
      (forall c <- countries :: HasRow(df, c, Some(DeathRateCode))) &&
      (forall v <- AdultVariants, c <- countries :: HasRow(df, c, v.code)) &&
      (forall v <- InfantVariants, c <- countries :: HasRow(df, c, v.code)) &&
      (forall c <- countries :: HasRow(df, c, Some(NeonatalCode))) &&
      (forall v <- UnderFiveVariants, c <- countries :: HasRow(df, c, v.code))
  {
    UpdatePlotsCharts(Init(df), countries, years);
    SingleCodeChart(df, DeathRateCode, countries, DeathRateTitle, years);
    SingleCodeChart(df, NeonatalCode, countries, NeonatalTitle, years);
    AdultChartSucceeds(df, countries, years);
    InfantChartSucceeds(df, countries, years);
    UnderFiveChartSucceeds(df, countries, years);
  }

  lemma AdultChartSucceeds<V>(df: Dataset<V>, countries: seq<string>, years: seq<int>)
    ensures LineChart(Init(df).adults, AdultVariants, countries, AdultTitle, years).Success? <==>
      (forall v <- AdultVariants, c <- countries :: HasRow(df, c, v.code))
  {
    VariantChart(df, IsIn(AdultCodes), AdultVariants, countries, AdultTitle, years);
  }

  lemma InfantChartSucceeds<V>(df: Dataset<V>, countries: seq<string>, years: seq<int>)
    ensures LineChart(Init(df).infants, InfantVariants, countries, InfantTitle, years).Success? <==>
      (forall v <- InfantVariants, c <- countries :: HasRow(df, c, v.code))
  {
    VariantChart(df, IsIn(InfantCodes), InfantVariants, countries, InfantTitle, years);
  }

  lemma UnderFiveChartSucceeds<V>(df: Dataset<V>, countries: seq<string>, years: seq<int>)
    ensures LineChart(Init(df).underFive, UnderFiveVariants, countries, UnderFiveTitle, years).Success? <==>
      (forall v <- UnderFiveVariants, c <- countries :: HasRow(df, c, v.code))
  {
    VariantChart(df, IsIn(UnderFiveCodes), UnderFiveVariants, countries, UnderFiveTitle, years);
  }

  /** Death-rate and neonatal charts: one series per selected country, in order, named by the country alone;
      a country with a single row gets exactly that row's values, with as many years as values. */
  lemma SingleIndicatorCharts<V>(view: View<V>, countries: seq<string>, years: seq<int>)
    requires UpdatePlots(view, countries, years).Success?
    ensures var p := UpdatePlots(view, countries, years).value;
      |p.deathRates.data| == |p.neonatal.data| == |countries|
    ensures var p := UpdatePlots(view, countries, years).value;
      forall i :: 0 <= i < |countries| ==>
        p.deathRates.data[i].name == p.neonatal.data[i].name == countries[i] &&
        p.deathRates.data[i].color == p.neonatal.data[i].color == None
    ensures var p := UpdatePlots(view, countries, years).value;
      forall i :: 0 <= i < |countries| && |CountryRows(view.neonatal, countries[i]).rows| == 1 &&
        Labelled(CountryRows(view.neonatal, countries[i]).rows[0])
        ==> |p.neonatal.data[i].x| == |p.neonatal.data[i].y| && Missing !in p.neonatal.data[i].y
  {
    var p := UpdatePlots(view, countries, years).value;
    UpdatePlotsShow(view, countries, years);
    CountryLines(view.deathRates, countries, p.deathRates.data);
    CountryLines(view.neonatal, countries, p.neonatal.data);
  }

  /** The adult, infant and under-five figures are the charts of their variants. */
  lemma VariantCharts<V>(view: View<V>, countries: seq<string>, years: seq<int>)
    requires UpdatePlots(view, countries, years).Success?
    ensures LineChart(view.adults, AdultVariants, countries, AdultTitle, years).Success?
    ensures UpdatePlots(view, countries, years).value.adults ==
      LineChart(view.adults, AdultVariants, countries, AdultTitle, years).value
    ensures LineChart(view.infants, InfantVariants, countries, InfantTitle, years).Success?
    ensures UpdatePlots(view, countries, years).value.infants ==
      LineChart(view.infants, InfantVariants, countries, InfantTitle, years).value
    ensures LineChart(view.underFive, UnderFiveVariants, countries, UnderFiveTitle, years).Success?
    ensures UpdatePlots(view, countries, years).value.underFive ==
      LineChart(view.underFive, UnderFiveVariants, countries, UnderFiveTitle, years).value
  {
  }

  /** What the two adult variants give the `i`-th country's series. */
  lemma AdultStyles<V>(d: seq<Series<V>>, countries: seq<string>, i: nat)
    requires i < |countries| && |d| == |countries| + |countries|
    requires Styled(d[i], AdultVariants[0], i, countries[i])
    requires Styled(d[|countries| + i], AdultVariants[1], i, countries[i])
    ensures var n := |countries|;
      d[i].name == countries[i] + ", female" && d[n + i].name == countries[i] + ", male" &&
      d[i].dash == Some(Dot) && d[n + i].dash == Some(Dashed) &&
      d[i].color == d[n + i].color == Some(i % PaletteSize)
  {
  }

  /** Adult mortality, country `i` of `n`: its female series at `i`, male at `n + i`, both coloured `i mod 10`;
      dotted and dashed. */
  lemma AdultsAt<V>(view: View<V>, countries: seq<string>, years: seq<int>, i: nat)
    requires UpdatePlots(view, countries, years).Success? && i < |countries|
    ensures var d, n := UpdatePlots(view, countries, years).value.adults.data, |countries|;
      |d| == n + n &&
      d[i].name == countries[i] + ", female" && d[n + i].name == countries[i] + ", male" &&
      d[i].dash == Some(Dot) && d[n + i].dash == Some(Dashed) &&
      d[i].color == d[n + i].color == Some(i % PaletteSize)
  {
    VariantCharts(view, countries, years);
    TwoBlocksStyled(view.adults, AdultVariants, countries, AdultTitle, years, i);
    AdultStyles(UpdatePlots(view, countries, years).value.adults.data, countries, i);
  }

  /** What female, male and total variants dotted, dashed and plain give the `i`-th country's series. */
  lemma SexAndTotalStyles<V>(d: seq<Series<V>>, vs: seq<Variant>, countries: seq<string>, i: nat)
    requires |vs| == 3 && vs[0].suffix == ", female" && vs[1].suffix == ", male" && vs[2].suffix == ", total"
    requires vs[0].dash == Some(Dot) && vs[1].dash == Some(Dashed) && vs[2].dash == None
    requires vs[0].colored && vs[1].colored && vs[2].colored
    requires i < |countries| && |d| == |countries| + |countries| + |countries|
    requires Styled(d[i], vs[0], i, countries[i])
    requires Styled(d[|countries| + i], vs[1], i, countries[i])
    requires Styled(d[|countries| + |countries| + i], vs[2], i, countries[i])
    ensures var n := |countries|;
      d[i].name == countries[i] + ", female" && d[n + i].name == countries[i] + ", male" &&
      d[n + n + i].name == countries[i] + ", total" &&
      d[i].dash == Some(Dot) && d[n + i].dash == Some(Dashed) && d[n + n + i].dash == None &&
      d[i].color == d[n + i].color == d[n + n + i].color == Some(i % PaletteSize)
  {
  }

  /** Infant mortality, country `i` of `n`: female at `i`, male at `n + i`, total at `2n + i`, all coloured
      `i mod 10`; dotted, dashed and plain. */
  lemma InfantsAt<V>(view: View<V>, countries: seq<string>, years: seq<int>, i: nat)
    requires UpdatePlots(view, countries, years).Success? && i < |countries|
    ensures var d, n := UpdatePlots(view, countries, years).value.infants.data, |countries|;
      |d| == n + n + n &&
      d[i].name == countries[i] + ", female" && d[n + i].name == countries[i] + ", male" &&
      d[n + n + i].name == countries[i] + ", total" &&
      d[i].dash == Some(Dot) && d[n + i].dash == Some(Dashed) && d[n + n + i].dash == None &&
      d[i].color == d[n + i].color == d[n + n + i].color == Some(i % PaletteSize)
  {
    VariantCharts(view, countries, years);
    ThreeBlocksStyled(view.infants, InfantVariants, countries, InfantTitle, years, i);
    SexAndTotalStyles(UpdatePlots(view, countries, years).value.infants.data, InfantVariants, countries, i);
  }

  /** Under-five mortality, laid out and styled as the infant chart. */
  lemma UnderFiveAt<V>(view: View<V>, countries: seq<string>, years: seq<int>, i: nat)
    requires UpdatePlots(view, countries, years).Success? && i < |countries|
    ensures var d, n := UpdatePlots(view, countries, years).value.underFive.data, |countries|;
      |d| == n + n + n &&
      d[i].name == countries[i] + ", female" && d[n + i].name == countries[i] + ", male" &&
      d[n + n + i].name == countries[i] + ", total" &&
      d[i].dash == Some(Dot) && d[n + i].dash == Some(Dashed) && d[n + n + i].dash == None &&
      d[i].color == d[n + i].color == d[n + n + i].color == Some(i % PaletteSize)
  {
    VariantCharts(view, countries, years);
    ThreeBlocksStyled(view.underFive, UnderFiveVariants, countries, UnderFiveTitle, years, i);
    SexAndTotalStyles(UpdatePlots(view, countries, years).value.underFive.data, UnderFiveVariants, countries, i);
  }

  /** x of every adult series comes from all of the country's adult rows, y from the one row of its code: y is
      never longer than x. */
  lemma AdultsNoLongerThanX<V>(view: View<V>, countries: seq<string>, years: seq<int>, i: nat)
    requires UpdatePlots(view, countries, years).Success? && i < |countries|
    requires LabelsPresent(CountryRows(view.adults, countries[i]))
    ensures var d, n := UpdatePlots(view, countries, years).value.adults.data, |countries|;
      n + i < |d| && |d[i].y| <= |d[i].x| && |d[n + i].y| <= |d[n + i].x|
  {
    VariantCharts(view, countries, years);
    TwoBlocksNoLongerThanX(view.adults, AdultVariants, countries, AdultTitle, years, i);
  }

  /** The same for the infant chart's three series. */
  lemma InfantsNoLongerThanX<V>(view: View<V>, countries: seq<string>, years: seq<int>, i: nat)
    requires UpdatePlots(view, countries, years).Success? && i < |countries|
    requires LabelsPresent(CountryRows(view.infants, countries[i]))
    ensures var d, n := UpdatePlots(view, countries, years).value.infants.data, |countries|;
      n + n + i < |d| &&
      |d[i].y| <= |d[i].x| && |d[n + i].y| <= |d[n + i].x| && |d[n + n + i].y| <= |d[n + n + i].x|
  {
    VariantCharts(view, countries, years);
    ThreeBlocksNoLongerThanX(view.infants, InfantVariants, countries, InfantTitle, years, i);
  }

  /** The same for the under-five chart's three series. */
  lemma UnderFiveNoLongerThanX<V>(view: View<V>, countries: seq<string>, years: seq<int>, i: nat)
    requires UpdatePlots(view, countries, years).Success? && i < |countries|
    requires LabelsPresent(CountryRows(view.underFive, countries[i]))
    ensures var d, n := UpdatePlots(view, countries, years).value.underFive.data, |countries|;
      n + n + i < |d| &&
      |d[i].y| <= |d[i].x| && |d[n + i].y| <= |d[n + i].x| && |d[n + n + i].y| <= |d[n + n + i].x|
  {
    VariantCharts(view, countries, years);
    ThreeBlocksNoLongerThanX(view.underFive, UnderFiveVariants, countries, UnderFiveTitle, years, i);
  }
}
