/**
 * The in-memory table (a pandas DataFrame) as the program uses it: named columns of cells, all of
 * the same height. Cells start as the text read from the CSV file; the loader turns the two date
 * columns into timestamps and the score column into hundredths.
 *
 * Also: the student key (last name, first name), the order in which pandas `groupby` visits
 * the keys (sorted, Python string order), and the extraction of typed activity rows.
 */
module Frame {
  import opened Wrappers

  /** Column names the program reads (frame/widget_result.py:105,120,130-131,140). */
  const LastName: string := "Nom de famille"
  const FirstName: string := "Prénom"
  const Status: string := "Statut"
  const Started: string := "Commencé"
  const Completed: string := "Terminé"
  const Note: string := "Note/20,00"

  /** The status value of a finished activity (frame/widget_result.py:120). */
  const Finished: string := "Terminée"

  datatype Cell = Text(text: string) | Time(stamp: int) | Score(hundredths: int)

  datatype Column = Column(name: string, cells: seq<Cell>)

  datatype Table = Table(columns: seq<Column>, height: nat)

  predicate Rectangular(t: Table) {
    forall c :: c in t.columns ==> |c.cells| == t.height
  }

  /** A DataFrame: every column holds one cell per row. */
  type DataFrame = t: Table | Rectangular(t) witness Table([], 0)

  /** The exceptions the core raises, one constructor per distinct cause. */
  datatype Error =
    | NoData                          // compute with no DataFrame loaded
    | MissingColumns(missing: set<string>)
    | UnsupportedFileType(filename: string)
    | FileNotFound(path: string)      // read_csv on a path that holds no file
    | ColumnNotFound(column: string)  // KeyError on a column lookup, pop or groupby
    | DateParse(column: string)       // to_datetime(..., errors='raise')
    | ScoreParse                      // float(...) on the rewritten score text
    | InsertOutOfRange(index: nat)    // DataFrame.insert past the last column
    | CellType(column: string)        // a cell that is not of the kind the computation reads
    | InvalidComparison(bound: string) // a timestamp column compared with unparseable text

  function ColumnNames(cols: seq<Column>): set<string> {
    set c | c in cols :: c.name
  }

  /** Column `p` is the first one called `name`. */
  predicate FirstNamed(cols: seq<Column>, name: string, p: int) {
    0 <= p < |cols| && cols[p].name == name && forall q :: 0 <= q < p ==> cols[q].name != name
  }

  /** The position of the first column called `name`, as a label lookup finds it. */
  function Find(cols: seq<Column>, name: string): (r: Option<nat>)
    ensures r.Some? ==> r.value < |cols| && cols[r.value].name == name
    ensures r.Some? ==> forall j :: 0 <= j < r.value ==> cols[j].name != name
    ensures r.None? <==> name !in ColumnNames(cols)
  {
    if cols == [] then None
    else if cols[0].name == name then Some(0)
    else
      assert ColumnNames(cols) == {cols[0].name} + ColumnNames(cols[1..]) by {
        assert cols == [cols[0]] + cols[1..];
      }
      match Find(cols[1..], name)
      case None => None
      case Some(p) => Some(p + 1)
  }

  /** A column named `name` with no column of that name before it is the one found. */
  lemma {:induction false} FindAt(cols: seq<Column>, name: string, p: nat)
    requires p < |cols| && cols[p].name == name
    requires forall j :: 0 <= j < p ==> cols[j].name != name
    ensures Find(cols, name) == Some(p)
  {
    if p > 0 {
      FindAt(cols[1..], name, p - 1);
    }
  }

  /** The cells of the column called `name`. */
  function Cells(t: DataFrame, name: string): (r: Result<seq<Cell>, Error>)
    ensures r.Ok? <==> name in ColumnNames(t.columns)
    ensures r.Ok? ==> |r.value| == t.height
    ensures r.Ok? ==> exists p :: FirstNamed(t.columns, name, p) && r.value == t.columns[p].cells
    ensures r.Err? ==> r.error == ColumnNotFound(name)
  {
    match Find(t.columns, name)
    case None => Err(ColumnNotFound(name))
    case Some(p) =>
      assert t.columns[p] in t.columns;
      assert FirstNamed(t.columns, name, p);
      Ok(t.columns[p].cells)
  }

  // ----------------------------------------------------------------------------------------------
  // Student keys and their order
  // ----------------------------------------------------------------------------------------------

  /** A student: (last name, first name). */
  type Key = (string, string)

  /** The label "Last First" under which a student is listed and selected. */
  function Label(k: Key): string {
    k.0 + " " + k.1
  }

  /** Python's `<` on strings: code point by code point, a proper prefix first. */
  predicate StrLess(a: string, b: string) {
    if a == [] then b != []
    else if b == [] then false
    else if a[0] != b[0] then a[0] < b[0]
    else StrLess(a[1..], b[1..])
  }

  lemma {:induction false} StrLessIrreflexive(a: string)
    ensures !StrLess(a, a)
  {
    if a != [] {
      StrLessIrreflexive(a[1..]);
    }
  }

  lemma {:induction false} StrLessTransitive(a: string, b: string, c: string)
    requires StrLess(a, b) && StrLess(b, c)
    ensures StrLess(a, c)
  {
    if a != [] && a[0] == b[0] && b[0] == c[0] {
      StrLessTransitive(a[1..], b[1..], c[1..]);
    }
  }

  lemma {:induction false} StrLessTotal(a: string, b: string)
    requires a != b
    ensures StrLess(a, b) || StrLess(b, a)
  {
    if a != [] && b != [] && a[0] == b[0] {
      assert a == [a[0]] + a[1..] && b == [b[0]] + b[1..];
      StrLessTotal(a[1..], b[1..]);
    }
  }

  /** Python's `<` on (last, first) tuples: lexicographic. */
  predicate KeyLess(x: Key, y: Key) {
    StrLess(x.0, y.0) || (x.0 == y.0 && StrLess(x.1, y.1))
  }

  lemma KeyLessIrreflexive(x: Key)
    ensures !KeyLess(x, x)
  {
    StrLessIrreflexive(x.0);
    StrLessIrreflexive(x.1);
  }

  lemma KeyLessTransitive(x: Key, y: Key, z: Key)
    requires KeyLess(x, y) && KeyLess(y, z)
    ensures KeyLess(x, z)
  {
    if StrLess(x.0, y.0) && StrLess(y.0, z.0) {
      StrLessTransitive(x.0, y.0, z.0);
    } else if x.0 == y.0 && y.0 == z.0 {
      StrLessTransitive(x.1, y.1, z.1);
    }
  }

  lemma KeyLessTotal(x: Key, y: Key)
    requires x != y
    ensures KeyLess(x, y) || KeyLess(y, x)
  {
    if x.0 != y.0 {
      StrLessTotal(x.0, y.0);
    } else {
      StrLessTotal(x.1, y.1);
    }
  }

  /** Strictly increasing keys: sorted and free of repetitions. */
  predicate Sorted(s: seq<Key>) {
    forall i, j :: 0 <= i < j < |s| ==> KeyLess(s[i], s[j])
  }

  lemma SortedDistinct(s: seq<Key>)
    requires Sorted(s)
    ensures forall i, j :: 0 <= i < j < |s| ==> s[i] != s[j]
  {
    forall i, j | 0 <= i < j < |s| ensures s[i] != s[j] {
      KeyLessIrreflexive(s[i]);
    }
  }

  lemma ConsSorted(h: Key, t: seq<Key>)
    requires Sorted(t)
    requires forall x :: x in t ==> KeyLess(h, x)
    ensures Sorted([h] + t)
  {
    var s := [h] + t;
    forall i, j | 0 <= i < j < |s| ensures KeyLess(s[i], s[j]) {
      if i > 0 {
        assert s[i] == t[i - 1] && s[j] == t[j - 1];
      } else {
        assert s[j] == t[j - 1] && s[j] in t;
      }
    }
  }

  lemma BelowHead(k: Key, s: seq<Key>)
    requires Sorted(s) && s != [] && KeyLess(k, s[0])
    ensures forall x :: x in s ==> KeyLess(k, x)
  {
    forall x | x in s ensures KeyLess(k, x) {
      var j :| 0 <= j < |s| && s[j] == x;
      if j > 0 {
        KeyLessTransitive(k, s[0], x);
      }
    }
  }

  /** `s` with `k` added in its place (unchanged when `k` is already there). */
  function Insert(s: seq<Key>, k: Key): (r: seq<Key>)
    requires Sorted(s)
    ensures Sorted(r)
    ensures forall x :: x in r <==> x in s || x == k
  {
    if s == [] then [k]
    else if s[0] == k then s
    else if KeyLess(k, s[0]) then
      BelowHead(k, s);
      ConsSorted(k, s);
      [k] + s
    else
      KeyLessTotal(k, s[0]);
      assert forall x :: x in s[1..] ==> KeyLess(s[0], x) by {
        forall x | x in s[1..] ensures KeyLess(s[0], x) {
          var j :| 0 <= j < |s[1..]| && s[1..][j] == x;
          assert s[j + 1] == x;
        }
      }
      var t := Insert(s[1..], k);
      ConsSorted(s[0], t);
      assert s == [s[0]] + s[1..];
      [s[0]] + t
  }

  /**
   * The students of a table in the order `groupby(['Nom de famille', 'Prénom'])` visits them:
   * every key once, sorted.
   */
  function GroupKeys(keys: seq<Key>): (r: seq<Key>)
    ensures Sorted(r)
    ensures forall x :: x in r <==> x in keys
  {
    if keys == [] then []
    else
      var n := |keys| - 1;
      assert keys == keys[..n] + [keys[n]];
      Insert(GroupKeys(keys[..n]), keys[n])
  }

  /** The number of distinct students equals the length of the group order. */
  lemma GroupKeysCount(keys: seq<Key>)
    ensures |GroupKeys(keys)| == |set k | k in keys|
  {
    var r := GroupKeys(keys);
    SortedDistinct(r);
    DistinctCard(r);
    assert (set k | k in r) == (set k | k in keys);
  }

  lemma {:induction false} DistinctCard(s: seq<Key>)
    requires forall i, j :: 0 <= i < j < |s| ==> s[i] != s[j]
    ensures |set k | k in s| == |s|
  {
    if s != [] {
      var t := s[1..];
      DistinctCard(t);
      assert (set k | k in s) == {s[0]} + (set k | k in t);
      assert s[0] !in t by {
        forall j | 0 <= j < |t| ensures t[j] != s[0] {
          assert t[j] == s[j + 1];
        }
      }
    }
  }

  // ----------------------------------------------------------------------------------------------
  // Typed rows
  // ----------------------------------------------------------------------------------------------

  /** The two name columns read as student keys, one per row. */
  function KeysOf(last: seq<Cell>, first: seq<Cell>): (r: Result<seq<Key>, Error>)
    requires |last| == |first|
    ensures r.Ok? ==> |r.value| == |last|
    ensures r.Ok? ==> forall i :: 0 <= i < |last| ==>
      last[i] == Text(r.value[i].0) && first[i] == Text(r.value[i].1)
    ensures r.Ok? <==> forall i :: 0 <= i < |last| ==> last[i].Text? && first[i].Text?
  {
    if last == [] then Ok([])
    else if !last[0].Text? then Err(CellType(LastName))
    else if !first[0].Text? then Err(CellType(FirstName))
    else
      match KeysOf(last[1..], first[1..])
      case Err(e) => Err(e)
      case Ok(ks) => Ok([(last[0].text, first[0].text)] + ks)
  }

  /** The key of every row of the table, in row order. */
  function StudentKeys(t: DataFrame): (r: Result<seq<Key>, Error>)
    ensures r.Ok? ==> |r.value| == t.height
  {
    match (Cells(t, LastName), Cells(t, FirstName))
    case (Err(e), _) => Err(e)
    case (_, Err(e)) => Err(e)
    case (Ok(last), Ok(first)) => KeysOf(last, first)
  }

  /** One row of activity, with its cells read as the computation reads them. */
  datatype Activity = Activity(student: Key, status: string, started: int, completed: int, score: int)

  /** The six columns a computation reads. */
  datatype Sources = Sources(last: seq<Cell>, first: seq<Cell>, status: seq<Cell>,
                             started: seq<Cell>, completed: seq<Cell>, score: seq<Cell>)
  {
    predicate WellSized() {
      |first| == |last| && |status| == |last| && |started| == |last|
      && |completed| == |last| && |score| == |last|
    }
  }

  function RecordAt(s: Sources, i: nat): Result<Activity, Error>
    requires s.WellSized() && i < |s.last|
  {
    if !s.last[i].Text? then Err(CellType(LastName))
    else if !s.first[i].Text? then Err(CellType(FirstName))
    else if !s.status[i].Text? then Err(CellType(Status))
    else if !s.started[i].Time? then Err(CellType(Started))
    else if !s.completed[i].Time? then Err(CellType(Completed))
    else if !s.score[i].Score? then Err(CellType(Note))
    else Ok(Activity((s.last[i].text, s.first[i].text), s.status[i].text,
                     s.started[i].stamp, s.completed[i].stamp, s.score[i].hundredths))
  }

  function RecordsFrom(s: Sources, i: nat): (r: Result<seq<Activity>, Error>)
    requires s.WellSized() && i <= |s.last|
    ensures r.Ok? ==> |r.value| == |s.last| - i
    ensures r.Ok? ==> forall j :: i <= j < |s.last| ==> RecordAt(s, j) == Ok(r.value[j - i])
    decreases |s.last| - i
  {
    if i == |s.last| then Ok([])
    else
      match RecordAt(s, i)
      case Err(e) => Err(e)
      case Ok(a) =>
        match RecordsFrom(s, i + 1)
        case Err(e) => Err(e)
        case Ok(rest) => Ok([a] + rest)
  }

  /** Every row of the table as an activity record, in row order. */
  function Records(t: DataFrame): (r: Result<seq<Activity>, Error>)
    ensures r.Ok? ==> |r.value| == t.height
  {
    match (Cells(t, LastName), Cells(t, FirstName), Cells(t, Status),
           Cells(t, Started), Cells(t, Completed), Cells(t, Note))
    case (Err(e), _, _, _, _, _) => Err(e)
    case (_, Err(e), _, _, _, _) => Err(e)
    case (_, _, Err(e), _, _, _) => Err(e)
    case (_, _, _, Err(e), _, _) => Err(e)
    case (_, _, _, _, Err(e), _) => Err(e)
    case (_, _, _, _, _, Err(e)) => Err(e)
    case (Ok(a), Ok(b), Ok(c), Ok(d), Ok(e), Ok(f)) => RecordsFrom(Sources(a, b, c, d, e, f), 0)
  }

  /** The filter list and the computation see the same student on every row. */
  lemma RecordsAgreeWithKeys(t: DataFrame)
    requires Records(t).Ok?
    ensures StudentKeys(t).Ok?
    ensures forall i :: 0 <= i < t.height ==> StudentKeys(t).value[i] == Records(t).value[i].student
  {
    var last, first := Cells(t, LastName).value, Cells(t, FirstName).value;
    var s := Sources(last, first, Cells(t, Status).value, Cells(t, Started).value,
                     Cells(t, Completed).value, Cells(t, Note).value);
    assert Records(t) == RecordsFrom(s, 0);
    assert StudentKeys(t) == KeysOf(last, first);
    SourcesKeys(s);
  }

  /** Rows that read as activities read as keys, the same student on each row. */
  lemma SourcesKeys(s: Sources)
    requires s.WellSized() && RecordsFrom(s, 0).Ok?
    ensures KeysOf(s.last, s.first).Ok?
    ensures forall i :: 0 <= i < |s.last| ==> KeysOf(s.last, s.first).value[i] == RecordsFrom(s, 0).value[i].student
  {
    var recs := RecordsFrom(s, 0).value;
    forall i | 0 <= i < |s.last| ensures s.last[i].Text? && s.first[i].Text? {
      assert RecordAt(s, i) == Ok(recs[i]);
    }
    var ks := KeysOf(s.last, s.first).value;
    forall i | 0 <= i < |s.last| ensures ks[i] == recs[i].student {
      assert RecordAt(s, i) == Ok(recs[i]);
    }
  }
}
