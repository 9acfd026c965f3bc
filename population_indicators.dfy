/** The "Population indicators" view: total population (absolute, or as shares of the total), population
    growth, rural against urban population, and rural against urban growth, over the selected countries. */
module PopulationIndicators {
  import opened Python
  import opened Tables
  import opened Charts

  const GrowthCode: string := "SP.POP.GROW"
  const TotalCode: string := "SP.POP.TOTL"
  const FemaleCode: string := "SP.POP.TOTL.FE.IN"
  const MaleCode: string := "SP.POP.TOTL.MA.IN"
  const FemaleShareCode: string := "SP.POP.TOTL.FE.ZS"
  const MaleShareCode: string := "SP.POP.TOTL.MA.ZS"
  const RuralCode: string := "SP.RUR.TOTL"
  const UrbanCode: string := "SP.URB.TOTL"
  const RuralShareCode: string := "SP.RUR.TOTL.ZS"
  const UrbanShareCode: string := "SP.URB.TOTL.IN.ZS"
  const RuralGrowthCode: string := "SP.RUR.TOTL.ZG"
  const UrbanGrowthCode: string := "SP.URB.GROW"

  const AbsoluteCodes: seq<string> := [TotalCode, FemaleCode, MaleCode]
  const ShareCodes: seq<string> := [FemaleShareCode, MaleShareCode]
  const RuralUrbanCodes: seq<string> := [RuralCode, UrbanCode]
  const RuralUrbanShareCodes: seq<string> := [RuralShareCode, UrbanShareCode]
  const RuralUrbanGrowthCodes: seq<string> := [RuralGrowthCode, UrbanGrowthCode]

  /** The settings' radio value that selects absolute numbers; every other value means shares. */
  const Absolute: string := "absolute"

  const GrowthTitle: string := "Population growth (annual %)"
  const RuralUrbanGrowthTitle: string := "Rural vs urban population growth (annual %)"

  function PopulationTitle(absolute: bool): (title: string)
    ensures |title| >= 10 && title[..10] == "Population"
    ensures absolute <==> title == "Population"
  {
    if absolute then "Population" else "Population (% of total population)"
  }

  function RuralUrbanTitle(absolute: bool): (title: string)
    ensures |title| >= 25 && title[..25] == "Rural vs urban population"
    ensures absolute <==> title == "Rural vs urban population"
  {
    "Rural vs urban population" + if absolute then "" else " (% of total population)"
  }

  /** The tables the view keeps from the dataset. */
  datatype View<V> = View(growth: Dataset<V>, population: Dataset<V>, populationShares: Dataset<V>,
                          ruralUrban: Dataset<V>, ruralUrbanShares: Dataset<V>, ruralUrbanGrowth: Dataset<V>)

  /** The constructor: each table is the dataset's rows of its indicator codes. */
  function Init<V>(df: Dataset<V>): (view: View<V>)
    ensures CodeSelection(view.growth, df, Equals(GrowthCode))
    ensures CodeSelection(view.population, df, IsIn(AbsoluteCodes))
    ensures CodeSelection(view.populationShares, df, IsIn(ShareCodes))
    ensures CodeSelection(view.ruralUrban, df, IsIn(RuralUrbanCodes))
    ensures CodeSelection(view.ruralUrbanShares, df, IsIn(RuralUrbanShareCodes))
    ensures CodeSelection(view.ruralUrbanGrowth, df, IsIn(RuralUrbanGrowthCodes))
  {
    View(
      WhereData(df, IndicatorCodeColumn, Equals(GrowthCode)),
      WhereData(df, IndicatorCodeColumn, IsIn(AbsoluteCodes)),
      WhereData(df, IndicatorCodeColumn, IsIn(ShareCodes)),
      WhereData(df, IndicatorCodeColumn, IsIn(RuralUrbanCodes)),
      WhereData(df, IndicatorCodeColumn, IsIn(RuralUrbanShareCodes)),
      WhereData(df, IndicatorCodeColumn, IsIn(RuralUrbanGrowthCodes)))
  }

  // Every two- and three-part chart of this view narrows both x and y to the series' own code.

  /** Absolute numbers: total, female (dashed), male (dotted); shares: female and male only. */
  function PopulationVariants(absolute: bool): (vs: seq<Variant>)
    ensures |vs| == if absolute then 3 else 2
  {
    if absolute then
      [Variant(Some(TotalCode), true, ", total", true, None),
       Variant(Some(FemaleCode), true, ", female", true, Some(Dashed)),
       Variant(Some(MaleCode), true, ", male", true, Some(Dot))]
    else
      [Variant(Some(FemaleShareCode), true, ", female", true, Some(Dashed)),
       Variant(Some(MaleShareCode), true, ", male", true, Some(Dot))]
  }

  /** Rural (dashed) then urban (dotted), in numbers or in shares. */
  function RuralUrbanVariants(absolute: bool): (vs: seq<Variant>)
    ensures |vs| == 2
  {
    [Variant(Some(if absolute then RuralCode else RuralShareCode), true, ", rural", true, Some(Dashed)),
     Variant(Some(if absolute then UrbanCode else UrbanShareCode), true, ", urban", true, Some(Dot))]
  }

  const RuralUrbanGrowthVariants: seq<Variant> := [
    Variant(Some(RuralGrowthCode), true, ", rural", true, Some(Dashed)),
    Variant(Some(UrbanGrowthCode), true, ", urban", true, Some(Dot))]

  /** The table a mode-dependent chart reads. */
  function PopulationTable<V>(view: View<V>, absolute: bool): Dataset<V>
  {
    if absolute then view.population else view.populationShares
  }

  function RuralUrbanTable<V>(view: View<V>, absolute: bool): Dataset<V>
  {
    if absolute then view.ruralUrban else view.ruralUrbanShares
  }

  /** The four figures, in the order the callback returns them. */
  datatype Plots<V> = Plots(population: Figure<V>, growth: Figure<V>, ruralUrban: Figure<V>, ruralUrbanGrowth: Figure<V>)

  /** `_update_plots(countries, years, abs_rel_values)`: the four figures, or the `IndexError` raised by a
      country without a row. */
  function UpdatePlots<V>(view: View<V>, countries: seq<string>, years: seq<int>, mode: string): (r: Result<Plots<V>>)
    ensures r.Failure? ==> r.error == IndexError
    ensures r.Success? ==>
      r.value.population.title == PopulationTitle(mode == Absolute) && r.value.growth.title == GrowthTitle &&
      r.value.ruralUrban.title == RuralUrbanTitle(mode == Absolute) &&
      r.value.ruralUrbanGrowth.title == RuralUrbanGrowthTitle
    ensures r.Success? ==>
      r.value.population.xRange == years && r.value.growth.xRange == years &&
      r.value.ruralUrban.xRange == years && r.value.ruralUrbanGrowth.xRange == years
  {
    var absolute := mode == Absolute;
    var population :- LineChart(PopulationTable(view, absolute), PopulationVariants(absolute), countries,
                                PopulationTitle(absolute), years);
    var growth :- LineChart(view.growth, [CountryLine], countries, GrowthTitle, years);
    var ruralUrban :- LineChart(RuralUrbanTable(view, absolute), RuralUrbanVariants(absolute), countries,
                                RuralUrbanTitle(absolute), years);
    var ruralUrbanGrowth :- LineChart(view.ruralUrbanGrowth, RuralUrbanGrowthVariants, countries,
                                      RuralUrbanGrowthTitle, years);
    Success(Plots(population, growth, ruralUrban, ruralUrbanGrowth))
  }

  /** Each figure is the chart of its variants over its table. */
  lemma UpdatePlotsCharts<V>(view: View<V>, countries: seq<string>, years: seq<int>, mode: string)
    ensures var absolute := mode == Absolute;
      UpdatePlots(view, countries, years, mode).Success? <==>
      LineChart(PopulationTable(view, absolute), PopulationVariants(absolute), countries, PopulationTitle(absolute), years).Success? &&
      LineChart(view.growth, [CountryLine], countries, GrowthTitle, years).Success? &&
      LineChart(RuralUrbanTable(view, absolute), RuralUrbanVariants(absolute), countries, RuralUrbanTitle(absolute), years).Success? &&
      LineChart(view.ruralUrbanGrowth, RuralUrbanGrowthVariants, countries, RuralUrbanGrowthTitle, years).Success?
    ensures var absolute, p := mode == Absolute, UpdatePlots(view, countries, years, mode);
      p.Success? ==>
      p.value.population == LineChart(PopulationTable(view, absolute), PopulationVariants(absolute), countries, PopulationTitle(absolute), years).value &&
      p.value.growth == LineChart(view.growth, [CountryLine], countries, GrowthTitle, years).value &&
      p.value.ruralUrban == LineChart(RuralUrbanTable(view, absolute), RuralUrbanVariants(absolute), countries, RuralUrbanTitle(absolute), years).value &&
      p.value.ruralUrbanGrowth == LineChart(view.ruralUrbanGrowth, RuralUrbanGrowthVariants, countries, RuralUrbanGrowthTitle, years).value
  {
  }

  lemma PopulationChartSucceeds<V>(df: Dataset<V>, countries: seq<string>, years: seq<int>, absolute: bool)
    ensures LineChart(PopulationTable(Init(df), absolute), PopulationVariants(absolute), countries, PopulationTitle(absolute), years).Success?
      <==> (forall v <- PopulationVariants(absolute), c <- countries :: HasRow(df, c, v.code))
  {
    if absolute {
      VariantChart(df, IsIn(AbsoluteCodes), PopulationVariants(absolute), countries, PopulationTitle(absolute), years);
    } else {
      VariantChart(df, IsIn(ShareCodes), PopulationVariants(absolute), countries, PopulationTitle(absolute), years);
    }
  }

  lemma RuralUrbanChartSucceeds<V>(df: Dataset<V>, countries: seq<string>, years: seq<int>, absolute: bool)
    ensures LineChart(RuralUrbanTable(Init(df), absolute), RuralUrbanVariants(absolute), countries, RuralUrbanTitle(absolute), years).Success?
      <==> (forall v <- RuralUrbanVariants(absolute), c <- countries :: HasRow(df, c, v.code))
  {
    if absolute {
      VariantChart(df, IsIn(RuralUrbanCodes), RuralUrbanVariants(absolute), countries, RuralUrbanTitle(absolute), years);
    } else {
      VariantChart(df, IsIn(RuralUrbanShareCodes), RuralUrbanVariants(absolute), countries, RuralUrbanTitle(absolute), years);
    }
  }

  lemma RuralUrbanGrowthChartSucceeds<V>(df: Dataset<V>, countries: seq<string>, years: seq<int>)
    ensures LineChart(Init(df).ruralUrbanGrowth, RuralUrbanGrowthVariants, countries, RuralUrbanGrowthTitle, years).Success?
      <==> (forall v <- RuralUrbanGrowthVariants, c <- countries :: HasRow(df, c, v.code))
  {
    VariantChart(df, IsIn(RuralUrbanGrowthCodes), RuralUrbanGrowthVariants, countries, RuralUrbanGrowthTitle, years);
  }

  /** The charts are drawn exactly when the dataset has, for every selected country, a row of every code the
      chosen mode plots; otherwise `[0]` of an empty row list raises. */
  lemma UpdatePlotsSucceeds<V>(df: Dataset<V>, countries: seq<string>, years: seq<int>, mode: string)
    ensures UpdatePlots(Init(df), countries, years, mode).Success? <==>
      (forall v <- PopulationVariants(mode == Absolute), c <- countries :: HasRow(df, c, v.code)) &&
      (forall c <- countries :: HasRow(df, c, Some(GrowthCode))) &&
      (forall v <- RuralUrbanVariants(mode == Absolute), c <- countries :: HasRow(df, c, v.code)) &&
      (forall v <- RuralUrbanGrowthVariants, c <- countries :: HasRow(df, c, v.code))
  {
    UpdatePlotsCharts(Init(df), countries, years, mode);
    PopulationChartSucceeds(df, countries, years, mode == Absolute);
    SingleCodeChart(df, GrowthCode, countries, GrowthTitle, years);
    RuralUrbanChartSucceeds(df, countries, years, mode == Absolute);
    RuralUrbanGrowthChartSucceeds(df, countries, years);
  }

  /** The growth chart: one series per selected country, in order, named by the country alone. */
  lemma GrowthChart<V>(view: View<V>, countries: seq<string>, years: seq<int>, mode: string)
    requires UpdatePlots(view, countries, years, mode).Success?
    ensures var d := UpdatePlots(view, countries, years, mode).value.growth.data;
      |d| == |countries| &&
      forall i :: 0 <= i < |countries| ==> d[i].name == countries[i] && d[i].color == None && d[i].dash == None
  {
    UpdatePlotsCharts(view, countries, years, mode);
    LineChartShows(view.growth, [CountryLine], countries, GrowthTitle, years);
    CountryLines(view.growth, countries, UpdatePlots(view, countries, years, mode).value.growth.data);
  }

  /** What total, female and male variants give the `i`-th country's series in absolute mode. */
  lemma AbsoluteStyles<V>(d: seq<Series<V>>, countries: seq<string>, i: nat)
    requires i < |countries| && |d| == |countries| + |countries| + |countries|
    requires Styled(d[i], PopulationVariants(true)[0], i, countries[i])
    requires Styled(d[|countries| + i], PopulationVariants(true)[1], i, countries[i])
    requires Styled(d[|countries| + |countries| + i], PopulationVariants(true)[2], i, countries[i])
    ensures var n := |countries|;
      d[i].name == countries[i] + ", total" && d[n + i].name == countries[i] + ", female" &&
      d[n + n + i].name == countries[i] + ", male" &&
      d[i].dash == None && d[n + i].dash == Some(Dashed) && d[n + n + i].dash == Some(Dot) &&
      d[i].color == d[n + i].color == d[n + n + i].color == Some(i % PaletteSize)
  {
  }

  /** Population in absolute mode, country `i` of `n`: total at `i`, female at `n + i`, male at `2n + i`, all
      coloured `i mod 10`; plain, dashed and dotted. */
  lemma PopulationAbsoluteAt<V>(view: View<V>, countries: seq<string>, years: seq<int>, i: nat)
    requires UpdatePlots(view, countries, years, Absolute).Success? && i < |countries|
    ensures var d, n := UpdatePlots(view, countries, years, Absolute).value.population.data, |countries|;
      |d| == n + n + n &&
      d[i].name == countries[i] + ", total" && d[n + i].name == countries[i] + ", female" &&
      d[n + n + i].name == countries[i] + ", male" &&
      d[i].dash == None && d[n + i].dash == Some(Dashed) && d[n + n + i].dash == Some(Dot) &&
      d[i].color == d[n + i].color == d[n + n + i].color == Some(i % PaletteSize)
  {
    UpdatePlotsCharts(view, countries, years, Absolute);
    ThreeBlocksStyled(view.population, PopulationVariants(true), countries, PopulationTitle(true), years, i);
    AbsoluteStyles(UpdatePlots(view, countries, years, Absolute).value.population.data, countries, i);
  }

  /** What a two-variant female/male or rural/urban chart gives the `i`-th country's series. */
  lemma PairStyles<V>(d: seq<Series<V>>, vs: seq<Variant>, countries: seq<string>, i: nat, first: string, second: string)
    requires |vs| == 2 && vs[0].suffix == first && vs[1].suffix == second
    requires vs[0].dash == Some(Dashed) && vs[1].dash == Some(Dot) && vs[0].colored && vs[1].colored
    requires i < |countries| && |d| == |countries| + |countries|
    requires Styled(d[i], vs[0], i, countries[i]) && Styled(d[|countries| + i], vs[1], i, countries[i])
    ensures var n := |countries|;
      d[i].name == countries[i] + first && d[n + i].name == countries[i] + second &&
      d[i].dash == Some(Dashed) && d[n + i].dash == Some(Dot) &&
      d[i].color == d[n + i].color == Some(i % PaletteSize)
  {
  }

  /** Population in any other mode, country `i` of `n`: female share at `i`, male share at `n + i`, no total. */
  lemma PopulationSharesAt<V>(view: View<V>, countries: seq<string>, years: seq<int>, mode: string, i: nat)
    requires mode != Absolute
    requires UpdatePlots(view, countries, years, mode).Success? && i < |countries|
    ensures var d, n := UpdatePlots(view, countries, years, mode).value.population.data, |countries|;
      |d| == n + n &&
      d[i].name == countries[i] + ", female" && d[n + i].name == countries[i] + ", male" &&
      d[i].dash == Some(Dashed) && d[n + i].dash == Some(Dot) &&
      d[i].color == d[n + i].color == Some(i % PaletteSize)
  {
    UpdatePlotsCharts(view, countries, years, mode);
    TwoBlocksStyled(view.populationShares, PopulationVariants(false), countries, PopulationTitle(false), years, i);
    PairStyles(UpdatePlots(view, countries, years, mode).value.population.data, PopulationVariants(false),
               countries, i, ", female", ", male");
  }

  /** Rural against urban, in either mode, country `i` of `n`: rural at `i` (dashed), urban at `n + i` (dotted). */
  lemma RuralUrbanAt<V>(view: View<V>, countries: seq<string>, years: seq<int>, mode: string, i: nat)
    requires UpdatePlots(view, countries, years, mode).Success? && i < |countries|
    ensures var d, n := UpdatePlots(view, countries, years, mode).value.ruralUrban.data, |countries|;
      |d| == n + n &&
      d[i].name == countries[i] + ", rural" && d[n + i].name == countries[i] + ", urban" &&
      d[i].dash == Some(Dashed) && d[n + i].dash == Some(Dot) &&
      d[i].color == d[n + i].color == Some(i % PaletteSize)
  {
    var absolute := mode == Absolute;
    UpdatePlotsCharts(view, countries, years, mode);
    TwoBlocksStyled(RuralUrbanTable(view, absolute), RuralUrbanVariants(absolute), countries, RuralUrbanTitle(absolute), years, i);
    PairStyles(UpdatePlots(view, countries, years, mode).value.ruralUrban.data, RuralUrbanVariants(absolute),
               countries, i, ", rural", ", urban");
  }

  /** Rural against urban growth, country `i` of `n`: rural at `i` (dashed), urban at `n + i` (dotted). */
  lemma RuralUrbanGrowthAt<V>(view: View<V>, countries: seq<string>, years: seq<int>, mode: string, i: nat)
    requires UpdatePlots(view, countries, years, mode).Success? && i < |countries|
    ensures var d, n := UpdatePlots(view, countries, years, mode).value.ruralUrbanGrowth.data, |countries|;
      |d| == n + n &&
      d[i].name == countries[i] + ", rural" && d[n + i].name == countries[i] + ", urban" &&
      d[i].dash == Some(Dashed) && d[n + i].dash == Some(Dot) &&
      d[i].color == d[n + i].color == Some(i % PaletteSize)
  {
    UpdatePlotsCharts(view, countries, years, mode);
    TwoBlocksStyled(view.ruralUrbanGrowth, RuralUrbanGrowthVariants, countries, RuralUrbanGrowthTitle, years, i);
    PairStyles(UpdatePlots(view, countries, years, mode).value.ruralUrbanGrowth.data, RuralUrbanGrowthVariants,
               countries, i, ", rural", ", urban");
  }

  /** In absolute mode, when each of the country's three rows carries its labels, each population series has
      exactly one value per year on its x axis. */
  lemma PopulationAbsoluteAligned<V>(view: View<V>, countries: seq<string>, years: seq<int>, i: nat)
    requires UpdatePlots(view, countries, years, Absolute).Success? && i < |countries|
    requires forall v <- PopulationVariants(true) :: LabelsPresent(VariantRows(view.population, v, countries[i]))
    ensures var d, n := UpdatePlots(view, countries, years, Absolute).value.population.data, |countries|;
      n + n + i < |d| &&
      |d[i].y| == |d[i].x| && |d[n + i].y| == |d[n + i].x| && |d[n + n + i].y| == |d[n + n + i].x|
  {
    var vs := PopulationVariants(true);
    assert vs[0] in vs && vs[1] in vs && vs[2] in vs;
    UpdatePlotsCharts(view, countries, years, Absolute);
    ThreeBlocksAligned(view.population, vs, countries, PopulationTitle(true), years, i);
  }

  /** The same for the rural and urban series of either mode. */
  lemma RuralUrbanAligned<V>(view: View<V>, countries: seq<string>, years: seq<int>, mode: string, i: nat)
    requires UpdatePlots(view, countries, years, mode).Success? && i < |countries|
    requires LabelsPresent(VariantRows(RuralUrbanTable(view, mode == Absolute), RuralUrbanVariants(mode == Absolute)[0], countries[i]))
    requires LabelsPresent(VariantRows(RuralUrbanTable(view, mode == Absolute), RuralUrbanVariants(mode == Absolute)[1], countries[i]))
    ensures var d, n := UpdatePlots(view, countries, years, mode).value.ruralUrban.data, |countries|;
      n + i < |d| && |d[i].y| == |d[i].x| && |d[n + i].y| == |d[n + i].x|
  {
    var absolute := mode == Absolute;
    var vs := RuralUrbanVariants(absolute);
    UpdatePlotsCharts(view, countries, years, mode);
    TwoBlocksAligned(RuralUrbanTable(view, absolute), vs, countries, RuralUrbanTitle(absolute), years, i);
  }
}
