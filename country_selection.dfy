/** The "Countries" settings group of the earlier revision: a selector with every country selected, and the
    callback that copies the selection into the store. */
module CountrySelection {
  import opened Python
  import opened Tables
  import opened SharedFilter

  /** What the group keeps from the dataset. */
  datatype Selection<V> = Selection(countries: seq<Cell<V>>)

  /** The constructor: the distinct country names in order of first occurrence. */
  function Init<V(==)>(df: Dataset<V>): (s: Selection<V>)
    ensures NoDuplicates(s.countries)
    ensures forall i :: 0 <= i < |df.rows| ==> df.rows[i][CountryNameColumn] in s.countries
    ensures forall c <- s.countries :: exists i :: 0 <= i < |df.rows| && df.rows[i][CountryNameColumn] == c
  {
    Selection(DistinctCountries(df))
  }

  /** The countries come in the order in which the dataset first names them. */
  lemma InitCountriesOrder<V>(df: Dataset<V>)
    ensures var names, cs := Column(df, CountryNameColumn), Init(df).countries;
      cs == Distinct(names) &&
      forall i, j :: 0 <= i < j < |cs| ==> FirstIndex(names, cs[i]) < FirstIndex(names, cs[j])
  {
    DistinctOrder(Column(df, CountryNameColumn));
  }

  /** `layout()`: one option per country, all of them selected, at most fifteen lines shown. Unlike the
      filter group, an empty country list raises nothing. */
  function Layout<V>(s: Selection<V>): (select: CountrySelect<V>)
    ensures |select.options| == |select.value| == |s.countries|
    ensures forall i :: 0 <= i < |s.countries| ==>
      select.options[i].caption == select.options[i].value == select.value[i] == s.countries[i]
    ensures select.size == ListSize(|s.countries|)
  {
    CountrySelect(Options(s.countries), s.countries, ListSize(|s.countries|))
  }

  // `_set_countries` is the filter group's `SharedFilter.SetCountries`.
}
