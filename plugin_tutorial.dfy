/** The plugin object of the earlier revision: it only reads the dataset and keeps the message of a read
    failure, and its layout shows that message when there is one and the framework's own layout otherwise. */
module TutorialPlugin {
  import opened Python
  import opened Tables
  import opened PopulationPlugin

  /** This revision's text in front of the path: the permission message reads "fil" for "file". */
  function TutorialPrefix(e: LoadError): string
  {
    if e == PermissionDenied then "Access to fil '" else Prefix(e)
  }

  /** This revision's message for a read failure: the path between quotes, inside the same sentences as
      in the later revision except for the misspelt permission message. */
  function TutorialErrorMessage(path: string, e: LoadError): (m: string)
    ensures |m| == |TutorialPrefix(e)| + |path| + |Suffix(e)| && m != ""
    ensures m[|TutorialPrefix(e)| - 1] == '\'' && m[|TutorialPrefix(e)| + |path|] == '\''
    ensures m[|TutorialPrefix(e)|..|TutorialPrefix(e)| + |path|] == path
    ensures e != PermissionDenied ==> m == ErrorMessage(path, e)
  {
    TutorialPrefix(e) + path + Suffix(e)
  }

  /** `self.error_message` once `__init__` is done: `None` after a successful read. */
  function TutorialMessage<V>(path: string, outcome: ReadOutcome<V>): (m: Option<string>)
    ensures m.None? <==> outcome.Read?
    ensures outcome.Raised? ==> m == Some(TutorialErrorMessage(path, outcome.error))
  {
    match outcome
    case Read(_) => None
    case Raised(e) => Some(TutorialErrorMessage(path, e))
  }

  /** The two revisions word every failure alike except a denied permission. */
  lemma RevisionsDiffer(p: string, e: LoadError)
    ensures TutorialErrorMessage(p, e) == ErrorMessage(p, e) <==> e != PermissionDenied
  {
    if e == PermissionDenied {
      // "fil '" against "file '": the fourteenth character tells them apart.
      assert TutorialErrorMessage(p, e)[13] == TutorialPrefix(e)[13] == ' ';
      assert ErrorMessage(p, e)[13] == Prefix(e)[13] == 'e';
    }
  }

  /** The misspelling aside, a message still tells every (path, failure) pair apart. */
  lemma TutorialErrorMessageInjective(p: string, a: LoadError, q: string, b: LoadError)
    ensures TutorialErrorMessage(p, a) == TutorialErrorMessage(q, b) ==> a == b && p == q
  {
    if TutorialErrorMessage(p, a) == TutorialErrorMessage(q, b) {
      if a != b {
        SuffixesDiffer(TutorialPrefix(a) + p, TutorialPrefix(b) + q, a, b);
      } else {
        SameFrame(p, q, TutorialPrefix(a), Suffix(a));
      }
    }
  }

  /** What `layout` shows. */
  datatype Page = ErrorPage(message: string) | BaseLayout

  /** `layout`: the error page when the message is a non-empty string, the base layout otherwise. */
  function Shown(message: Option<string>): (d: Page)
    ensures d.ErrorPage? <==> message.Some? && message.value != ""
    ensures d.ErrorPage? ==> d.message == message.value
  {
    if message.Some? && message.value != "" then ErrorPage(message.value) else BaseLayout
  }

  /** The plugin: the message of a failed read, and the table after a successful one. */
  class PopulationAnalysis<V> {
    var errorMessage: Option<string>
    var populationData: Option<Dataset<V>>

    /** `__init__`: each `except` clause sets its message; nothing returns early and nothing else is done. */
    constructor (path: string, outcome: ReadOutcome<V>)
      ensures errorMessage == TutorialMessage(path, outcome)
      ensures populationData == if outcome.Read? then Some(outcome.df) else None
    {
      errorMessage := None;
      populationData := None;
      new;
      match outcome {
        case Read(df) =>
          populationData := Some(df);
        case Raised(e) =>
          errorMessage := Some(TutorialErrorMessage(path, e));
      }
    }

    /** `layout` of this plugin. */
    function Layout(): (d: Page)
      reads this
      ensures d == Shown(errorMessage)
    {
      Shown(errorMessage)
    }
  }

  /** After `__init__` the error page is shown exactly when the read failed, and then it carries the
      message of that failure. */
  lemma ShownAfterRead<V>(path: string, outcome: ReadOutcome<V>)
    ensures Shown(TutorialMessage(path, outcome)).ErrorPage? <==> outcome.Raised?
    ensures outcome.Raised? ==> Shown(TutorialMessage(path, outcome)).message == TutorialErrorMessage(path, outcome.error)
    ensures outcome.Read? ==> Shown(TutorialMessage(path, outcome)) == BaseLayout
  {
  }
}
