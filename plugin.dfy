/** The plugin object: reading the dataset, turning each kind of read failure into a message for the user,
    and, when the read succeeds, registering the stores, the shared filter and the four views. */
module PopulationPlugin {
  import opened Tables
  import SharedFilter

  /** The ways reading the CSV file can fail, one per `except` clause, in clause order. */
  datatype LoadError = PermissionDenied | FileNotFound | ParserError | EmptyData | Unknown

  /** What reading the CSV file produced: the table, or the kind of exception it raised. */
  datatype ReadOutcome<V> = Read(df: Dataset<V>) | Raised(error: LoadError)

  /** The text of a message in front of the path, quote included. */
  function Prefix(e: LoadError): string
  {
    match e
    case PermissionDenied => "Access to file '"
    case Unknown => "Unknown exception when trying to read '"
    case _ => "File '"
  }

  /** The text of a message after the path, closing quote included. */
  function Suffix(e: LoadError): string
  {
    match e
    case PermissionDenied => "' denied."
    case FileNotFound => "' not found."
    case ParserError => "' is not a valid CSV file."
    case EmptyData => "' is an empty file."
    case Unknown => "'."
  }

  /** The message for a read failure: the path between quotes inside a sentence that names the failure. */
  function ErrorMessage(path: string, e: LoadError): (m: string)
    ensures |m| == |Prefix(e)| + |path| + |Suffix(e)| && m != ""
    ensures m[|Prefix(e)| - 1] == '\'' && m[|Prefix(e)| + |path|] == '\''
    ensures m[|Prefix(e)|..|Prefix(e)| + |path|] == path
    ensures m[|m| - 1] == '.'
  {
    Prefix(e) + path + Suffix(e)
  }

  /** `self.error_message` once `__init__` is done: empty after a successful read. */
  function Message<V>(path: string, outcome: ReadOutcome<V>): (m: string)
    ensures m == "" <==> outcome.Read?
    ensures outcome.Raised? ==> m == ErrorMessage(path, outcome.error)
  {
    match outcome
    case Read(_) => ""
    case Raised(e) => ErrorMessage(path, e)
  }

  /** Two strings that end in tails differing `j` characters from the end are different. */
  lemma TailsDiffer(x: string, s: string, y: string, t: string, j: nat)
    requires 0 < j <= |s| && j <= |t| && s[|s| - j] != t[|t| - j]
    ensures x + s != y + t
  {
    var u, w := x + s, y + t;
    assert u[|u| - j] == s[|s| - j];
    assert w[|w| - j] == t[|t| - j];
  }

  /** No tail is a tail of another: some position from the end tells any two apart. */
  lemma SuffixesDiffer(x: string, y: string, a: LoadError, b: LoadError)
    requires a != b
    ensures x + Suffix(a) != y + Suffix(b)
  {
    var j := if {a, b} == {PermissionDenied, FileNotFound} then 3
      else if {a, b} == {ParserError, EmptyData} then 7
      else 2;
    TailsDiffer(x, Suffix(a), y, Suffix(b), j);
  }

  /** Messages with the same text around the path quote the same path. */
  lemma SameFrame(p: string, q: string, pre: string, post: string)
    requires pre + p + post == pre + q + post
    ensures p == q
  {
    var m := pre + p + post;
    assert |p| == |q|;
    assert p == m[|pre|..|pre| + |p|];
    assert q == m[|pre|..|pre| + |q|];
  }

  /** A message tells which failure happened and to which path: no two (path, failure) pairs share one. */
  lemma ErrorMessageInjective(p: string, a: LoadError, q: string, b: LoadError)
    ensures ErrorMessage(p, a) == ErrorMessage(q, b) ==> a == b && p == q
  {
    if ErrorMessage(p, a) == ErrorMessage(q, b) {
      if a != b {
        SuffixesDiffer(Prefix(a) + p, Prefix(b) + q, a, b);
      } else {
        SameFrame(p, q, Prefix(a), Suffix(a));
      }
    }
  }

  /** The settings stores of the plugin. */
  datatype StoreId = SelectedCountries | SelectedYears

  /** The two view groups. */
  datatype Group = BirthDeathFertility | Population

  /** The four view classes. */
  datatype ViewKind = BirthIndicatorsView | MortalityRatesView | PopulationByAgesView | PopulationIndicatorsView

  /** A registered view: its class, the group it is shown in and the table its constructor is given. The state
      each class derives from that table is its own module's `Init`. */
  datatype RegisteredView<V> = RegisteredView(kind: ViewKind, group: Group, table: Dataset<V>)

  /** The views `__init__` adds, in order: birth indicators and mortality rates in the birth/death/fertility
      group, population by ages and population indicators in the population group, each built from the whole
      table. */
  function Views<V>(df: Dataset<V>): (vs: seq<RegisteredView<V>>)
    ensures |vs| == 4
    ensures vs[0].kind == BirthIndicatorsView && vs[1].kind == MortalityRatesView
    ensures vs[2].kind == PopulationByAgesView && vs[3].kind == PopulationIndicatorsView
    ensures vs[0].group == vs[1].group == BirthDeathFertility && vs[2].group == vs[3].group == Population
    ensures forall j :: 0 <= j < |vs| ==> vs[j].table == df
  {
    [RegisteredView(BirthIndicatorsView, BirthDeathFertility, df),
     RegisteredView(MortalityRatesView, BirthDeathFertility, df),
     RegisteredView(PopulationByAgesView, Population, df),
     RegisteredView(PopulationIndicatorsView, Population, df)]
  }

  /** What `layout` shows: the error display with a message. */
  datatype Display = ErrorDisplay(message: string)

  /** The plugin: its message and what its constructor has registered so far, in registration order. */
  class PopulationAnalysis<V(==)> {
    var errorMessage: string
    var stores: seq<StoreId>
    var sharedSettings: seq<SharedFilter.Filter<V>>
    var views: seq<RegisteredView<V>>

    /** A plugin either has a message and nothing registered, or no message and all of it registered:
        two stores, the filter, two birth/death/fertility views followed by two population views. */
    ghost predicate Consistent()
      reads this
    {
      if errorMessage == "" then
        |stores| == 2 && |sharedSettings| == 1 && |views| == 4 &&
        views[0].group == views[1].group == BirthDeathFertility && views[2].group == views[3].group == Population
      else
        stores == [] && sharedSettings == [] && views == []
    }

    /** `__init__`: a failed read sets the message and returns before registering anything. */
    constructor (path: string, outcome: ReadOutcome<V>)
      ensures errorMessage == Message(path, outcome)
      ensures outcome.Raised? ==> stores == [] && sharedSettings == [] && views == []
      ensures outcome.Read? ==> stores == [SelectedCountries, SelectedYears]
      ensures outcome.Read? ==> sharedSettings == [SharedFilter.Init(outcome.df)]
      ensures outcome.Read? ==> views == Views(outcome.df)
      ensures Consistent()
    {
      errorMessage := "";
      stores := [];
      sharedSettings := [];
      views := [];
      new;
      if outcome.Raised? {
        errorMessage := ErrorMessage(path, outcome.error);
        return;
      }
      Register(outcome.df);
    }

    /** The registrations `__init__` makes after a successful read, in order: the two session stores,
        the filter group built from the table, then each view in its group; the plugin is then consistent. */
    method Register(df: Dataset<V>)
      requires errorMessage == "" && stores == [] && sharedSettings == [] && views == []
      modifies this
      ensures errorMessage == old(errorMessage)
      ensures stores == [SelectedCountries, SelectedYears]
      ensures sharedSettings == [SharedFilter.Init(df)]
      ensures views == Views(df)
      ensures Consistent()
    {
      var filter, vs := SharedFilter.Init(df), Views(df);
      AddStore(SelectedCountries);
      AddStore(SelectedYears);
      AddSharedSettingsGroup(filter);
      for j := 0 to |vs|
        invariant views == vs[..j]
        invariant errorMessage == old(errorMessage)
        invariant stores == [SelectedCountries, SelectedYears] && sharedSettings == [filter]
      {
        AddView(vs[j]);
      }
    }

    /** `add_store`: one more store, nothing else changes. */
    method AddStore(id: StoreId)
      modifies this
      ensures stores == old(stores) + [id]
      ensures errorMessage == old(errorMessage) && sharedSettings == old(sharedSettings) && views == old(views)
    {
      stores := stores + [id];
    }

    /** `add_shared_settings_group`: one more settings group, nothing else changes. */
    method AddSharedSettingsGroup(filter: SharedFilter.Filter<V>)
      modifies this
      ensures sharedSettings == old(sharedSettings) + [filter]
      ensures errorMessage == old(errorMessage) && stores == old(stores) && views == old(views)
    {
      sharedSettings := sharedSettings + [filter];
    }

    /** `add_view`: one more view, nothing else changes. */
    method AddView(view: RegisteredView<V>)
      modifies this
      ensures views == old(views) + [view]
      ensures errorMessage == old(errorMessage) && stores == old(stores) && sharedSettings == old(sharedSettings)
    {
      views := views + [view];
    }

    /** `layout`: the error display of the message. */
    function Layout(): (d: Display)
      reads this
      ensures d.message == errorMessage
    {
      ErrorDisplay(errorMessage)
    }
  }
}
