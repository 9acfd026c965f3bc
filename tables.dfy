/** The indicator table and the pandas operations the views apply to it.

    A table has column labels and rectangular rows of cells. In the dataset the
    first four columns are the labels "Country Name", "Country Code",
    "Indicator Name" and "Indicator Code"; every further column is a year,
    starting at 1960. A cell is empty (NaN), a text or an opaque number. */
module Tables {
  import opened Python

  datatype Cell<V> = Missing | Text(s: string) | Number(v: V)

  datatype RawTable<V> = RawTable(columns: seq<string>, rows: seq<seq<Cell<V>>>)

  /** A pandas frame: every row has one cell per column. */
  predicate Rectangular<V>(t: RawTable<V>) {
    forall i :: 0 <= i < |t.rows| ==> |t.rows[i]| == |t.columns|
  }

  type Table<V> = t: RawTable<V> | Rectangular(t) witness RawTable([], [])

  const LabelHeaders: seq<string> := ["Country Name", "Country Code", "Indicator Name", "Indicator Code"]

  /** Positions of the four label columns, and of the first year column. */
  const CountryNameColumn: nat := 0
  const CountryCodeColumn: nat := 1
  const IndicatorNameColumn: nat := 2
  const IndicatorCodeColumn: nat := 3
  const FirstYearColumn: nat := 4

  /** The dataset's schema: the four label columns first, so that the source's
      access by column name is access by position here. */
  predicate HasSchema<V>(t: RawTable<V>) {
    |t.columns| >= 4 && t.columns[..4] == LabelHeaders
  }

  type Dataset<V> = t: Table<V> | HasSchema(t) witness RawTable(LabelHeaders, [])

  /** The year of the first year column. */
  const FirstYear: nat := 1960

  /** Column `4 + k` is labelled with the year `1960 + k`, as in the World Bank files the plugin reads. */
  predicate YearLabelled(columns: seq<string>) {
    forall j :: FirstYearColumn <= j < |columns| ==> columns[j] == Str(FirstYear + j - FirstYearColumn)
  }

  // ---------------------------------------------------------------------------
  // Boolean row filtering: `df[df[col] == s]` and `df[df[col].isin(ss)]`

  datatype Test = Equals(s: string) | IsIn(ss: seq<string>)

  /** A cell passes a comparison with strings only when it holds a text; NaN and numbers never do. */
  predicate Passes<V>(c: Cell<V>, test: Test) {
    match c
    case Text(s) => (match test case Equals(x) => s == x case IsIn(xs) => s in xs)
    case _ => false
  }

  predicate Selects<V>(row: seq<Cell<V>>, col: nat, test: Test) {
    col < |row| && Passes(row[col], test)
  }

  function KeepRows<V>(rows: seq<seq<Cell<V>>>, col: nat, test: Test): (r: seq<seq<Cell<V>>>)
    ensures |r| <= |rows|
  {
    if rows == [] then []
    else (if Selects(rows[0], col, test) then [rows[0]] else []) + KeepRows(rows[1..], col, test)
  }

  /** Filtering keeps exactly the rows that pass. */
  lemma {:induction false} KeepRowsMembers<V>(rows: seq<seq<Cell<V>>>, col: nat, test: Test)
    ensures forall row <- KeepRows(rows, col, test) :: row in rows && Selects(row, col, test)
    ensures forall row <- rows :: Selects(row, col, test) ==> row in KeepRows(rows, col, test)
  {
    if rows != [] {
      KeepRowsMembers(rows[1..], col, test);
      assert rows == [rows[0]] + rows[1..];
    }
  }

  /** Filtering keeps the input order: it distributes over concatenation of row blocks. */
  lemma {:induction false} KeepRowsAppend<V>(a: seq<seq<Cell<V>>>, b: seq<seq<Cell<V>>>, col: nat, test: Test)
    ensures KeepRows(a + b, col, test) == KeepRows(a, col, test) + KeepRows(b, col, test)
  {
    if a == [] {
      assert a + b == b;
    } else {
      var ab := a + b;
      assert ab[0] == a[0] && ab[1..] == a[1..] + b;
      KeepRowsAppend(a[1..], b, col, test);
      var left, right := KeepRows(a[1..], col, test), KeepRows(b, col, test);
      if Selects(a[0], col, test) {
        assert KeepRows(ab, col, test) == [a[0]] + (left + right);
        assert KeepRows(a, col, test) == [a[0]] + left;
        assert [a[0]] + (left + right) == ([a[0]] + left) + right;
      } else {
        assert KeepRows(ab, col, test) == left + right;
        assert KeepRows(a, col, test) == left;
      }
    }
  }

  lemma {:induction false} KeepRowsWidth<V>(rows: seq<seq<Cell<V>>>, col: nat, test: Test, w: nat)
    requires forall i :: 0 <= i < |rows| ==> |rows[i]| == w
    ensures forall i :: 0 <= i < |KeepRows(rows, col, test)| ==> |KeepRows(rows, col, test)[i]| == w
  {
    if rows != [] {
      KeepRowsWidth(rows[1..], col, test, w);
    }
  }

  /** `df[mask]`: the rows whose cell in `col` passes `test`, in their order, with all columns. */
  function Where<V>(t: Table<V>, col: nat, test: Test): (r: Table<V>)
    ensures r.columns == t.columns
    ensures |r.rows| <= |t.rows|
    ensures forall row <- r.rows :: row in t.rows && Selects(row, col, test)
    ensures forall row <- t.rows :: Selects(row, col, test) ==> row in r.rows
  {
    KeepRowsWidth(t.rows, col, test, |t.columns|);
    KeepRowsMembers(t.rows, col, test);
    RawTable(t.columns, KeepRows(t.rows, col, test))
  }

  /** A filtered dataset keeps the dataset's schema, the four label headers included, and holds exactly
      the dataset's rows that pass the test. */
  function WhereData<V>(t: Dataset<V>, col: nat, test: Test): (r: Dataset<V>)
    ensures r.columns == t.columns
    ensures forall i :: 0 <= i < |r.rows| ==> r.rows[i] in t.rows && Selects(r.rows[i], col, test)
    ensures forall row <- t.rows :: Selects(row, col, test) ==> row in r.rows
  {
    Where(t, col, test)
  }

  /** The rows of `r` are exactly the rows of `t` whose indicator code passes `test`, under the same columns. */
  ghost predicate CodeSelection<V>(r: Table<V>, t: Table<V>, test: Test) {
    r.columns == t.columns &&
    (forall row <- r.rows :: row in t.rows && Selects(row, IndicatorCodeColumn, test)) &&
    (forall row <- t.rows :: Selects(row, IndicatorCodeColumn, test) ==> row in r.rows)
  }

  // ---------------------------------------------------------------------------
  // `dropna(axis="columns", how="all")`

  /** Some row holds a value in column `j`. */
  predicate HasValue<V>(rows: seq<seq<Cell<V>>>, j: nat) {
    exists i :: 0 <= i < |rows| && j < |rows[i]| && rows[i][j] != Missing
  }

  /** Which columns `dropna(axis="columns", how="all")` keeps. */
  function Mask<V>(t: Table<V>): (m: seq<bool>)
    ensures |m| == |t.columns|
    ensures forall j :: 0 <= j < |m| ==> (m[j] <==> HasValue(t.rows, j))
    ensures |t.rows| == 0 ==> forall j :: 0 <= j < |m| ==> !m[j]
  {
    seq(|t.columns|, j requires 0 <= j => HasValue(t.rows, j))
  }

  function Count(m: seq<bool>): (n: nat)
    ensures n <= |m|
  {
    if m == [] then 0 else (if m[0] then 1 else 0) + Count(m[1..])
  }

  /** The elements of `s` whose mask entry is true, in order. */
  function Compress<X>(s: seq<X>, m: seq<bool>): (r: seq<X>)
    requires |s| == |m|
    ensures |r| == Count(m)
  {
    if s == [] then [] else (if m[0] then [s[0]] else []) + Compress(s[1..], m[1..])
  }

  lemma {:induction false} CompressAppend<X>(s1: seq<X>, m1: seq<bool>, s2: seq<X>, m2: seq<bool>)
    requires |s1| == |m1| && |s2| == |m2|
    ensures Compress(s1 + s2, m1 + m2) == Compress(s1, m1) + Compress(s2, m2)
    ensures Count(m1 + m2) == Count(m1) + Count(m2)
  {
    if s1 != [] {
      var head := if m1[0] then [s1[0]] else [];
      assert (s1 + s2)[0] == s1[0] && (s1 + s2)[1..] == s1[1..] + s2;
      assert (m1 + m2)[0] == m1[0] && (m1 + m2)[1..] == m1[1..] + m2;
      CompressAppend(s1[1..], m1[1..], s2, m2);
      assert Compress(s1 + s2, m1 + m2) == head + Compress(s1[1..] + s2, m1[1..] + m2);
      assert Compress(s1, m1) == head + Compress(s1[1..], m1[1..]);
    } else {
      assert s1 + s2 == s2 && m1 + m2 == m2;
    }
  }

  lemma {:induction false} CompressAllTrue<X>(s: seq<X>, m: seq<bool>)
    requires |s| == |m|
    requires forall j :: 0 <= j < |m| ==> m[j]
    ensures Compress(s, m) == s && Count(m) == |m|
  {
    if s != [] {
      CompressAllTrue(s[1..], m[1..]);
    }
  }

  /** A pointwise smaller mask keeps no more columns. */
  lemma {:induction false} CountMonotone(m1: seq<bool>, m2: seq<bool>)
    requires |m1| == |m2|
    requires forall j :: 0 <= j < |m1| ==> m1[j] ==> m2[j]
    ensures Count(m1) <= Count(m2)
  {
    if m1 != [] {
      CountMonotone(m1[1..], m2[1..]);
    }
  }

  /** Position of the `k`-th kept element. */
  function Pos(m: seq<bool>, k: nat): (p: nat)
    requires k < Count(m)
    ensures p < |m| && m[p]
  {
    if m[0] then (if k == 0 then 0 else 1 + Pos(m[1..], k - 1)) else 1 + Pos(m[1..], k)
  }

  lemma {:induction false} CompressAt<X>(s: seq<X>, m: seq<bool>, k: nat)
    requires |s| == |m| && k < Count(m)
    ensures Compress(s, m)[k] == s[Pos(m, k)]
  {
    if m[0] {
      if k > 0 {
        CompressAt(s[1..], m[1..], k - 1);
      }
    } else {
      CompressAt(s[1..], m[1..], k);
    }
  }

  /** Compressing with a mask that only keeps non-empty cells leaves no empty cell. */
  lemma {:induction false} CompressPresent<V>(s: seq<Cell<V>>, m: seq<bool>)
    requires |s| == |m|
    requires forall j :: 0 <= j < |m| ==> m[j] ==> s[j] != Missing
    ensures Missing !in Compress(s, m)
  {
    if s != [] {
      CompressPresent(s[1..], m[1..]);
    }
  }

  /** `dropna(axis="columns", how="all")`: keep exactly the columns in which some row has a value.
      Without rows every column goes. */
  function DropEmptyColumns<V>(t: Table<V>): (r: Table<V>)
    ensures |r.columns| == Count(Mask(t)) && |r.rows| == |t.rows|
    ensures r.columns == Compress(t.columns, Mask(t))
    ensures forall i :: 0 <= i < |t.rows| ==> r.rows[i] == Compress(t.rows[i], Mask(t))
    ensures |t.rows| == 0 ==> r.columns == []
  {
    var m := Mask(t);
    if |t.rows| == 0 then
      NoRowsNoColumns(m);
      RawTable(Compress(t.columns, m), [])
    else
      RawTable(Compress(t.columns, m), seq(|t.rows|, i requires 0 <= i < |t.rows| => Compress(t.rows[i], m)))
  }

  lemma {:induction false} NoRowsNoColumns(m: seq<bool>)
    requires forall j :: 0 <= j < |m| ==> !m[j]
    ensures Count(m) == 0
  {
    if m != [] {
      NoRowsNoColumns(m[1..]);
    }
  }

  /** After dropping the empty columns no column is empty, so dropping again changes nothing. */
  lemma DropEmptyColumnsIdempotent<V>(t: Table<V>)
    ensures DropEmptyColumns(DropEmptyColumns(t)) == DropEmptyColumns(t)
  {
    var m := Mask(t);
    var r := DropEmptyColumns(t);
    var m' := Mask(r);
    forall k | 0 <= k < |m'|
      ensures m'[k]
    {
      var p := Pos(m, k);
      var i :| 0 <= i < |t.rows| && p < |t.rows[i]| && t.rows[i][p] != Missing;
      CompressAt(t.rows[i], m, k);
      assert r.rows[i][k] != Missing;
    }
    CompressAllTrue(r.columns, m');
    forall i | 0 <= i < |r.rows|
      ensures Compress(r.rows[i], m') == r.rows[i]
    {
      CompressAllTrue(r.rows[i], m');
    }
  }

  // ---------------------------------------------------------------------------
  // Positional selection: `df.iloc[:, a:b]`, `values.tolist()[0]`, one column

  /** `df.iloc[:, a:b]`: every row and the column label list sliced the Python way. */
  function ILocColumns<V>(t: Table<V>, a: int, b: int): (r: Table<V>)
    ensures r.columns == Slice(t.columns, a, b) && |r.rows| == |t.rows|
    ensures forall i :: 0 <= i < |t.rows| ==> r.rows[i] == Slice(t.rows[i], a, b)
  {
    RawTable(Slice(t.columns, a, b), seq(|t.rows|, i requires 0 <= i < |t.rows| => Slice(t.rows[i], a, b)))
  }

  /** Slicing columns and then looking for empty columns is the same as slicing the mask. */
  lemma MaskOfSlice<V>(t: Table<V>, a: int, b: int)
    ensures Mask(ILocColumns(t, a, b)) == Slice(Mask(t), a, b)
  {
    var r := ILocColumns(t, a, b);
    var n := |t.columns|;
    var lo, hi := ClampIndex(n, a), ClampIndex(n, b);
    if lo < hi {
      assert |Mask(r)| == hi - lo;
      forall j | 0 <= j < hi - lo
        ensures Mask(r)[j] == Mask(t)[lo + j]
      {
        MaskOfSliceAt(t, a, b, j);
      }
    }
  }

  /** Cell `j` of a row of the slice is cell `lo + j` of the row it was cut from. */
  lemma SliceCellAt<V>(t: Table<V>, a: int, b: int, j: nat, i: nat)
    requires ClampIndex(|t.columns|, a) + j < ClampIndex(|t.columns|, b) && i < |t.rows|
    ensures i < |ILocColumns(t, a, b).rows| && j < |ILocColumns(t, a, b).rows[i]|
    ensures ILocColumns(t, a, b).rows[i][j] == t.rows[i][ClampIndex(|t.columns|, a) + j]
  {
    assert |t.rows[i]| == |t.columns|;
    assert ILocColumns(t, a, b).rows[i] == Slice(t.rows[i], a, b);
  }

  /** A value in column `j` of the slice is a value in column `lo + j` of the table. */
  lemma SliceValueFromTable<V>(t: Table<V>, a: int, b: int, j: nat)
    requires ClampIndex(|t.columns|, a) + j < ClampIndex(|t.columns|, b)
    requires HasValue(ILocColumns(t, a, b).rows, j)
    ensures HasValue(t.rows, ClampIndex(|t.columns|, a) + j)
  {
    var rows := ILocColumns(t, a, b).rows;
    var i :| 0 <= i < |rows| && j < |rows[i]| && rows[i][j] != Missing;
    SliceCellAt(t, a, b, j, i);
    assert ClampIndex(|t.columns|, a) + j < |t.rows[i]|;
  }

  /** A value in column `lo + j` of the table is a value in column `j` of the slice. */
  lemma SliceValueToSlice<V>(t: Table<V>, a: int, b: int, j: nat)
    requires ClampIndex(|t.columns|, a) + j < ClampIndex(|t.columns|, b)
    requires HasValue(t.rows, ClampIndex(|t.columns|, a) + j)
    ensures HasValue(ILocColumns(t, a, b).rows, j)
  {
    var lo := ClampIndex(|t.columns|, a);
    var i :| 0 <= i < |t.rows| && lo + j < |t.rows[i]| && t.rows[i][lo + j] != Missing;
    SliceCellAt(t, a, b, j, i);
  }

  lemma MaskOfSliceAt<V>(t: Table<V>, a: int, b: int, j: nat)
    requires ClampIndex(|t.columns|, a) + j < ClampIndex(|t.columns|, b)
    ensures HasValue(ILocColumns(t, a, b).rows, j) == HasValue(t.rows, ClampIndex(|t.columns|, a) + j)
  {
    if HasValue(ILocColumns(t, a, b).rows, j) {
      SliceValueFromTable(t, a, b, j);
    }
    if HasValue(t.rows, ClampIndex(|t.columns|, a) + j) {
      SliceValueToSlice(t, a, b, j);
    }
  }

  /** `df.values.tolist()[0]`: the first row, or an `IndexError` when there is none. */
  function FirstRow<V>(t: Table<V>): (r: Result<seq<Cell<V>>>)
    ensures r.Success? <==> |t.rows| > 0
    ensures r.Success? ==> r.value == t.rows[0] && |r.value| == |t.columns|
    ensures r.Failure? ==> r.error == IndexError
  {
    if |t.rows| == 0 then Failure(IndexError) else Success(t.rows[0])
  }

  /** `df[label].to_list()` for the column at position `j`. */
  function Column<V>(t: Table<V>, j: nat): (r: seq<Cell<V>>)
    requires j < |t.columns|
    ensures |r| == |t.rows| && forall i :: 0 <= i < |r| ==> r[i] == t.rows[i][j]
  {
    seq(|t.rows|, i requires 0 <= i < |t.rows| => t.rows[i][j])
  }

  // ---------------------------------------------------------------------------
  // `drop_duplicates(subset=["Country Name"])["Country Name"].to_list()`

  ghost predicate NoDuplicates<X>(s: seq<X>) {
    forall i, j :: 0 <= i < j < |s| ==> s[i] != s[j]
  }

  /** Index of the first occurrence of `x` in `s`. */
  ghost function FirstIndex<X>(s: seq<X>, x: X): (k: nat)
    requires x in s
    ensures k < |s| && s[k] == x
    ensures forall i :: 0 <= i < k ==> s[i] != x
  {
    if s[0] == x then 0 else 1 + FirstIndex(s[1..], x)
  }

  /** The distinct values of `s`, each kept at its first occurrence. Two empty cells count as
      duplicates of each other, as pandas treats NaN. */
  function Distinct<X(==)>(s: seq<X>): (r: seq<X>)
    ensures forall x <- r :: x in s
    ensures forall x <- s :: x in r
    ensures NoDuplicates(r)
    ensures |r| <= |s|
  {
    if s == [] then []
    else
      var r := Distinct(s[..|s| - 1]);
      if s[|s| - 1] in r then r else r + [s[|s| - 1]]
  }

  /** The distinct values come in the order of their first occurrences. */
  lemma {:induction false} DistinctOrder<X>(s: seq<X>)
    ensures forall i, j :: 0 <= i < j < |Distinct(s)| ==>
      FirstIndex(s, Distinct(s)[i]) < FirstIndex(s, Distinct(s)[j])
  {
    if s != [] {
      var init := s[..|s| - 1];
      var last := s[|s| - 1];
      DistinctOrder(init);
      var r := Distinct(init);
      assert s == init + [last];
      forall x | x in init
        ensures FirstIndex(s, x) == FirstIndex(init, x)
      {
        FirstIndexPrefix(init, [last], x);
      }
      if last !in r {
        assert last !in init;
        assert FirstIndex(s, last) == |s| - 1;
      }
    }
  }

  lemma {:induction false} FirstIndexPrefix<X>(a: seq<X>, b: seq<X>, x: X)
    requires x in a
    ensures FirstIndex(a + b, x) == FirstIndex(a, x)
  {
    if a[0] != x {
      assert (a + b)[1..] == a[1..] + b;
      FirstIndexPrefix(a[1..], b, x);
    }
  }

  /** The country list of the shared settings: the distinct "Country Name" cells, in order of first occurrence. */
  function DistinctCountries<V(==)>(t: Dataset<V>): (r: seq<Cell<V>>)
    ensures NoDuplicates(r)
    ensures forall c <- r :: exists i :: 0 <= i < |t.rows| && t.rows[i][CountryNameColumn] == c
    ensures forall i :: 0 <= i < |t.rows| ==> t.rows[i][CountryNameColumn] in r
  {
    var names := Column(t, CountryNameColumn);
    var r := Distinct(names);
    assert forall c <- r :: c in names;
    assert forall i :: 0 <= i < |t.rows| ==> names[i] in r;
    r
  }
}
