/**
 * `WidgetResult.compute` of frame/widget_result.py: for each selected student, in group order,
 * the completed activities that fall inside the schedule intervals, their best score and the
 * list of their scores, one grid row per student.
 */
module WidgetResult {
  import opened Wrappers
  import opened Seqs
  import opened Frame
  import opened WidgetQuery

  /**
   * A schedule bound as pandas compares it with a timestamp column: a time, NaT (the empty
   * text), or a text it cannot read as a time, for which the comparison raises.
   */
  datatype Bound = At(stamp: int) | NaT | Unparseable

  /** One line of the result grid: its row, "last first", the best score if above 0, all scores. */
  datatype StudentResult = StudentResult(gridRow: nat, name: string, max: Option<int>, notes: seq<int>)

  // ----------------------------------------------------------------------------------------------
  // Row selections
  // ----------------------------------------------------------------------------------------------

  /** The rows of one `groupby` group. */
  function OfStudent(k: Key): Activity -> bool {
    (a: Activity) => a.student == k
  }

  /** `query("Statut == 'Terminée'")`. */
  function IsFinished(): Activity -> bool {
    (a: Activity) => a.status == Finished
  }

  /** `(data['Commencé'] >= start) & (data['Terminé'] <= end)`; a comparison with NaT is false. */
  function InWindow(lo: Bound, hi: Bound): Activity -> bool {
    (a: Activity) => lo.At? && hi.At? && lo.stamp <= a.started && a.completed <= hi.stamp
  }

  /** A student is shown when its "last first" text is among the checked filter entries. */
  function Selected(checked: seq<string>): Key -> bool {
    (k: Key) => Label(k) in checked
  }

  /** The rows of `rows` inside one interval; the start bound is compared first. */
  function Window(rows: seq<Activity>, iv: Interval, parse: string -> Bound): (r: Result<seq<Activity>, Error>)
    ensures r.Err? <==> parse(iv.0).Unparseable? || parse(iv.1).Unparseable?
    ensures r.Ok? ==> |r.value| <= |rows|
    ensures r.Ok? ==> forall a :: a in r.value <==>
      a in rows && parse(iv.0).At? && parse(iv.1).At?
      && parse(iv.0).stamp <= a.started && a.completed <= parse(iv.1).stamp
  {
    var lo, hi := parse(iv.0), parse(iv.1);
    if lo.Unparseable? then Err(InvalidComparison(iv.0))
    else if hi.Unparseable? then Err(InvalidComparison(iv.1))
    else Ok(Filter(rows, InWindow(lo, hi)))
  }

  /** The `concat` of the window of every interval, in schedule order; a row may appear more than once. */
  function Matched(rows: seq<Activity>, schedule: Schedule, parse: string -> Bound): (r: Result<seq<Activity>, Error>)
    ensures r.Err? ==>
      exists i :: 0 <= i < |schedule| && r.error in {InvalidComparison(schedule[i].0), InvalidComparison(schedule[i].1)}
    ensures r.Ok? ==> forall a :: a in r.value ==> a in rows
  {
    if schedule == [] then Ok([])
    else
      var n := |schedule| - 1;
      match Matched(rows, schedule[..n], parse)
      case Err(e) =>
        var i :| 0 <= i < n && e in {InvalidComparison(schedule[..n][i].0), InvalidComparison(schedule[..n][i].1)};
        assert schedule[..n][i] == schedule[i];
        Err(e)
      case Ok(df) =>
        match Window(rows, schedule[n], parse)
        case Err(e) =>
          assert e in {InvalidComparison(schedule[n].0), InvalidComparison(schedule[n].1)};
          Err(e)
        case Ok(w) => Ok(df + w)
  }

  /** Some interval of `schedule` holds `a` between two parsed bounds. */
  predicate InSomeWindow(a: Activity, schedule: Schedule, parse: string -> Bound) {
    exists i :: 0 <= i < |schedule| && InWindow(parse(schedule[i].0), parse(schedule[i].1))(a)
  }

  /** Some bound of `schedule` is a text pandas refuses to compare with a time. */
  predicate HasUnparseable(schedule: Schedule, parse: string -> Bound) {
    exists i :: 0 <= i < |schedule| && (parse(schedule[i].0).Unparseable? || parse(schedule[i].1).Unparseable?)
  }

  // ----------------------------------------------------------------------------------------------
  // Scores
  // ----------------------------------------------------------------------------------------------

  function Max(s: seq<int>): (m: int)
    requires s != []
    ensures m in s && forall x :: x in s ==> x <= m
  {
    if |s| == 1 then s[0]
    else
      var r := Max(s[1..]);
      assert forall x :: x in s ==> x == s[0] || x in s[1..];
      if s[0] >= r then s[0] else r
  }

  /** `df['Note/20,00'].values`, in row order. */
  function Scores(df: seq<Activity>): (r: seq<int>)
    ensures |r| == |df| && forall i :: 0 <= i < |df| ==> r[i] == df[i].score
  {
    seq(|df|, i requires 0 <= i < |df| => df[i].score)
  }

  /**
   * The "MAX." cell: the largest score when it is above 0; nothing when there are no rows (the
   * maximum is NaN) or when no score is above 0.
   */
  function Best(df: seq<Activity>): (m: Option<int>)
    ensures m.Some? ==> m.value > 0 && m.value in Scores(df) && forall x :: x in Scores(df) ==> x <= m.value
    ensures m.None? <==> forall x :: x in Scores(df) ==> x <= 0
  {
    if df == [] then None
    else
      var m := Max(Scores(df));
      if m > 0 then Some(m) else None
  }

  // ----------------------------------------------------------------------------------------------
  // The computation as a function of its inputs
  // ----------------------------------------------------------------------------------------------

  /** The student of every row. */
  function Students(recs: seq<Activity>): (ks: seq<Key>)
    ensures |ks| == |recs| && forall i :: 0 <= i < |recs| ==> ks[i] == recs[i].student
  {
    seq(|recs|, i requires 0 <= i < |recs| => recs[i].student)
  }

  /** The rows the loop body reads for student `k`: its group, then its completed activities. */
  function CompletedRows(recs: seq<Activity>, k: Key): seq<Activity> {
    Filter(Filter(recs, OfStudent(k)), IsFinished())
  }

  /** The grid line of student `k` at row `cpt`, or the exception a comparison raised. */
  function StudentRow(recs: seq<Activity>, k: Key, cpt: nat, schedule: Schedule, parse: string -> Bound)
    : (r: Result<StudentResult, Error>)
    ensures r.Err? <==> HasUnparseable(schedule, parse)
  {
    MatchedOk(CompletedRows(recs, k), schedule, parse);
    match Matched(CompletedRows(recs, k), schedule, parse)
    case Err(e) => Err(e)
    case Ok(df) => Ok(StudentResult(cpt, Label(k), Best(df), Scores(df)))
  }

  function Prepend(acc: seq<StudentResult>, r: Result<seq<StudentResult>, Error>): Result<seq<StudentResult>, Error> {
    match r
    case Err(e) => Err(e)
    case Ok(rest) => Ok(acc + rest)
  }

  /** Groups `i`, ... of `keys`, the next selected one at grid row `cpt`. */
  function RowsFrom(recs: seq<Activity>, keys: seq<Key>, i: nat, cpt: nat, checked: seq<string>,
                    schedule: Schedule, parse: string -> Bound): (r: Result<seq<StudentResult>, Error>)
    requires i <= |keys|
    ensures r.Ok? ==> |r.value| <= |keys| - i
    decreases |keys| - i
  {
    if i == |keys| then Ok([])
    else if !Selected(checked)(keys[i]) then RowsFrom(recs, keys, i + 1, cpt, checked, schedule, parse)
    else
      match StudentRow(recs, keys[i], cpt, schedule, parse)
      case Err(e) => Err(e)
      case Ok(row) => Prepend([row], RowsFrom(recs, keys, i + 1, cpt + 1, checked, schedule, parse))
  }

  /**
   * `compute` on `parent.data`, the expected columns, the checked filter texts and the schedule
   * table's contents.
   */
  function ComputeSpec(data: Option<DataFrame>, expected: set<string>, checked: seq<string>,
                       schedule: Schedule, parse: string -> Bound): (r: Result<seq<StudentResult>, Error>)
    ensures r.Ok? ==> data.Some? && expected <= ColumnNames(data.value.columns) && Records(data.value).Ok?
    ensures r.Ok? ==> |r.value| <= |GroupKeys(Students(Records(data.value).value))|
  {
    if data.None? then Err(NoData)
    else
      var names := ColumnNames(data.value.columns);
      if !(expected <= names) then Err(MissingColumns(expected - names))
      else
        match Records(data.value)
        case Err(e) => Err(e)
        case Ok(recs) => RowsFrom(recs, GroupKeys(Students(recs)), 0, 1, checked, schedule, parse)
  }

  // ----------------------------------------------------------------------------------------------
  // The loop
  // ----------------------------------------------------------------------------------------------

  /** `compute`: the checks, then the loop over the groups. */
  method Compute(data: Option<DataFrame>, expected: set<string>, checked: seq<string>,
                 schedule: Schedule, parse: string -> Bound) returns (r: Result<seq<StudentResult>, Error>)
    ensures r == ComputeSpec(data, expected, checked, schedule, parse)
  {
    if data.None? {
      return Err(NoData);
    }
    var names := ColumnNames(data.value.columns);
    if !(expected <= names) {
      return Err(MissingColumns(expected - names));
    }
    var read := Records(data.value);
    if read.Err? {
      return Err(read.error);
    }
    r := StudentRows(read.value, GroupKeys(Students(read.value)), checked, schedule, parse);
  }

  /** The loop over the groups, with the grid row counter `cpt`. */
  method StudentRows(recs: seq<Activity>, keys: seq<Key>, checked: seq<string>, schedule: Schedule,
                     parse: string -> Bound) returns (r: Result<seq<StudentResult>, Error>)
    ensures r == RowsFrom(recs, keys, 0, 1, checked, schedule, parse)
  {
    var acc: seq<StudentResult> := [];
    var cpt: nat := 1;
    ghost var whole := RowsFrom(recs, keys, 0, 1, checked, schedule, parse);
    if whole.Ok? {
      assert [] + whole.value == whole.value;
    }
    for i := 0 to |keys|
      invariant Prepend(acc, RowsFrom(recs, keys, i, cpt, checked, schedule, parse)) == whole
    {
      var k := keys[i];
      if Label(k) in checked {
        var m := MatchRows(CompletedRows(recs, k), schedule, parse);
        if m.Err? {
          return Err(m.error);
        }
        var row := StudentResult(cpt, Label(k), Best(m.value), Scores(m.value));
        ghost var rest := RowsFrom(recs, keys, i + 1, cpt + 1, checked, schedule, parse);
        if rest.Ok? {
          assert acc + ([row] + rest.value) == (acc + [row]) + rest.value;
        }
        acc := acc + [row];
        cpt := cpt + 1;
      }
    }
    assert whole == Prepend(acc, Ok([]));
    assert acc + [] == acc;
    return Ok(acc);
  }

  /** The loop over the schedule intervals, concatenating each window to `df`. */
  method MatchRows(rows: seq<Activity>, schedule: Schedule, parse: string -> Bound)
    returns (r: Result<seq<Activity>, Error>)
    ensures r == Matched(rows, schedule, parse)
  {
    var df: seq<Activity> := [];
    for j := 0 to |schedule|
      invariant Matched(rows, schedule[..j], parse) == Ok(df)
    {
      var w := Window(rows, schedule[j], parse);
      assert schedule[..j + 1][..j] == schedule[..j];
      if w.Err? {
        MatchedErrExtends(rows, schedule, parse, j + 1, w.error);
        return Err(w.error);
      }
      df := df + w.value;
    }
    assert schedule[..|schedule|] == schedule;
    return Ok(df);
  }

  /** Once the windows of a prefix raise, the whole schedule raises the same exception. */
  lemma {:induction false} MatchedErrExtends(rows: seq<Activity>, schedule: Schedule, parse: string -> Bound, m: nat, e: Error)
    requires m <= |schedule| && Matched(rows, schedule[..m], parse) == Err(e)
    ensures Matched(rows, schedule, parse) == Err(e)
    decreases |schedule| - m
  {
    if m == |schedule| {
      assert schedule[..m] == schedule;
    } else {
      assert schedule[..m + 1][..m] == schedule[..m];
      MatchedErrExtends(rows, schedule, parse, m + 1, e);
    }
  }

  // ----------------------------------------------------------------------------------------------
  // Properties of the computation
  // ----------------------------------------------------------------------------------------------

  /** Without a table, or with an expected column absent, nothing is computed. */
  lemma ComputeRefusals(data: Option<DataFrame>, expected: set<string>, checked: seq<string>,
                        schedule: Schedule, parse: string -> Bound)
    ensures data.None? ==> ComputeSpec(data, expected, checked, schedule, parse) == Err(NoData)
    ensures data.Some? && !(expected <= ColumnNames(data.value.columns)) ==>
      ComputeSpec(data, expected, checked, schedule, parse).Err?
      && ComputeSpec(data, expected, checked, schedule, parse).error.MissingColumns?
      && forall c :: c in ComputeSpec(data, expected, checked, schedule, parse).error.missing <==>
           c in expected && Find(data.value.columns, c).None?
  {
  }

  /** A row is in the concatenation exactly when it is a row of `rows` inside some interval. */
  lemma {:induction false} MatchedMembers(rows: seq<Activity>, schedule: Schedule, parse: string -> Bound)
    requires Matched(rows, schedule, parse).Ok?
    ensures forall x :: x in Matched(rows, schedule, parse).value <==>
      x in rows && InSomeWindow(x, schedule, parse)
  {
    if schedule != [] {
      var n := |schedule| - 1;
      var init := schedule[..n];
      MatchedMembers(rows, init, parse);
      var w := Filter(rows, InWindow(parse(schedule[n].0), parse(schedule[n].1)));
      forall x ensures InSomeWindow(x, schedule, parse) <==>
        InSomeWindow(x, init, parse) || InWindow(parse(schedule[n].0), parse(schedule[n].1))(x)
      {
        if InSomeWindow(x, init, parse) {
          var i :| 0 <= i < |init| && InWindow(parse(init[i].0), parse(init[i].1))(x);
          assert init[i] == schedule[i];
        }
        if InSomeWindow(x, schedule, parse) {
          var i :| 0 <= i < |schedule| && InWindow(parse(schedule[i].0), parse(schedule[i].1))(x);
          if i < n {
            assert init[i] == schedule[i];
          }
        }
      }
    }
  }

  /** The concatenation raises exactly when some bound cannot be read as a time. */
  lemma {:induction false} MatchedOk(rows: seq<Activity>, schedule: Schedule, parse: string -> Bound)
    ensures Matched(rows, schedule, parse).Ok? <==> !HasUnparseable(schedule, parse)
  {
    if schedule != [] {
      var n := |schedule| - 1;
      var init := schedule[..n];
      MatchedOk(rows, init, parse);
      if HasUnparseable(init, parse) {
        var i :| 0 <= i < |init| && (parse(init[i].0).Unparseable? || parse(init[i].1).Unparseable?);
        assert init[i] == schedule[i];
      }
      if HasUnparseable(schedule, parse) {
        var i :| 0 <= i < |schedule| && (parse(schedule[i].0).Unparseable? || parse(schedule[i].1).Unparseable?);
        if i < n {
          assert init[i] == schedule[i];
        }
      }
    }
  }

  /**
   * The windows of two schedules one after the other are the concatenation of their windows:
   * a row inside two intervals is kept twice, and the row count is the sum over the intervals.
   */
  lemma {:induction false} MatchedConcat(rows: seq<Activity>, s1: Schedule, s2: Schedule, parse: string -> Bound)
    requires Matched(rows, s1, parse).Ok? && Matched(rows, s2, parse).Ok?
    ensures Matched(rows, s1 + s2, parse) == Ok(Matched(rows, s1, parse).value + Matched(rows, s2, parse).value)
  {
    if s2 == [] {
      assert s1 + s2 == s1;
      assert Matched(rows, s1, parse).value + [] == Matched(rows, s1, parse).value;
    } else {
      var n := |s2| - 1;
      var x := s1 + s2;
      assert x[..|x| - 1] == s1 + s2[..n];
      assert x[|x| - 1] == s2[n];
      MatchedLast(rows, s2, parse);
      MatchedConcat(rows, s1, s2[..n], parse);
      MatchedLast(rows, x, parse);
      var a, b := Matched(rows, s1, parse).value, Matched(rows, s2[..n], parse).value;
      var w := Window(rows, s2[n], parse).value;
      assert (a + b) + w == a + (b + w);
    }
  }

  /** The loop's last turn: the windows of all but the last interval, then the last window. */
  lemma MatchedLast(rows: seq<Activity>, s: Schedule, parse: string -> Bound)
    requires s != []
    ensures Matched(rows, s, parse).Ok? <==>
      Matched(rows, s[..|s| - 1], parse).Ok? && Window(rows, s[|s| - 1], parse).Ok?
    ensures Matched(rows, s, parse).Ok? ==>
      Matched(rows, s, parse).value
      == Matched(rows, s[..|s| - 1], parse).value + Window(rows, s[|s| - 1], parse).value
  {
  }

  /** One interval alone keeps the rows it holds, each once, in row order. */
  lemma SingleInterval(rows: seq<Activity>, iv: Interval, parse: string -> Bound)
    requires !parse(iv.0).Unparseable? && !parse(iv.1).Unparseable?
    ensures Matched(rows, [iv], parse) == Ok(Filter(rows, InWindow(parse(iv.0), parse(iv.1))))
  {
    assert [iv][..0] == [];
    var w := Filter(rows, InWindow(parse(iv.0), parse(iv.1)));
    assert [] + w == w;
  }

  /** The scores of a set of rows are exactly the scores some row carries. */
  lemma ScoresMembers(df: seq<Activity>)
    ensures forall n :: n in Scores(df) <==> exists a :: a in df && a.score == n
  {
    var notes := Scores(df);
    forall n ensures n in notes <==> exists a :: a in df && a.score == n {
      if n in notes {
        var i :| 0 <= i < |notes| && notes[i] == n;
        assert df[i] in df;
      }
      if exists a :: a in df && a.score == n {
        var a :| a in df && a.score == n;
        var i :| 0 <= i < |df| && df[i] == a;
        assert notes[i] == n;
      }
    }
  }

  /** The rows read for student `k` are its completed activities. */
  lemma CompletedMembers(recs: seq<Activity>, k: Key)
    ensures forall a :: a in CompletedRows(recs, k) <==> a in recs && a.student == k && a.status == Finished
  {
    var own := Filter(recs, OfStudent(k));
    assert forall a :: a in own <==> a in recs && a.student == k;
    assert forall a :: a in Filter(own, IsFinished()) <==> a in own && a.status == Finished;
  }

  /**
   * The grid line of a student: its name, its row, the scores of exactly the student's completed
   * activities lying in some interval, and the best of them if it is above 0.
   */
  lemma StudentRowFacts(recs: seq<Activity>, k: Key, cpt: nat, schedule: Schedule, parse: string -> Bound)
    requires StudentRow(recs, k, cpt, schedule, parse).Ok?
    ensures StudentRow(recs, k, cpt, schedule, parse).value.name == Label(k)
    ensures StudentRow(recs, k, cpt, schedule, parse).value.gridRow == cpt
    ensures forall n :: n in StudentRow(recs, k, cpt, schedule, parse).value.notes <==>
      exists a :: a in recs && a.student == k && a.status == Finished && a.score == n
                  && InSomeWindow(a, schedule, parse)
    ensures var row := StudentRow(recs, k, cpt, schedule, parse).value;
      row.max.Some? ==> row.max.value > 0 && row.max.value in row.notes
                        && forall n :: n in row.notes ==> n <= row.max.value
    ensures var row := StudentRow(recs, k, cpt, schedule, parse).value;
      row.max.None? <==> forall n :: n in row.notes ==> n <= 0
  {
    StudentRowHead(recs, k, cpt, schedule, parse);
    var rows := CompletedRows(recs, k);
    MatchedMembers(rows, schedule, parse);
    CompletedMembers(recs, k);
    var df := Matched(rows, schedule, parse).value;
    ScoresMembers(df);
    assert forall a :: a in df <==>
      a in recs && a.student == k && a.status == Finished && InSomeWindow(a, schedule, parse);
  }

  /**
   * A line is on the grid row and under the name it was computed for: the cheap half of
   * `StudentRowFacts`, which `LinesCons` uses without the facts about the scores.
   */
  lemma StudentRowHead(recs: seq<Activity>, k: Key, cpt: nat, schedule: Schedule, parse: string -> Bound)
    requires StudentRow(recs, k, cpt, schedule, parse).Ok?
    ensures StudentRow(recs, k, cpt, schedule, parse).value.gridRow == cpt
    ensures StudentRow(recs, k, cpt, schedule, parse).value.name == Label(k)
  {
  }

  /** One turn of the group loop: an unselected group adds nothing, a selected one its line. */
  lemma RowsFromCons(recs: seq<Activity>, keys: seq<Key>, i: nat, cpt: nat,
                     checked: seq<string>, schedule: Schedule, parse: string -> Bound)
    requires i < |keys| && RowsFrom(recs, keys, i, cpt, checked, schedule, parse).Ok?
    ensures !Selected(checked)(keys[i]) ==>
      RowsFrom(recs, keys, i + 1, cpt, checked, schedule, parse)
      == RowsFrom(recs, keys, i, cpt, checked, schedule, parse)
    ensures Selected(checked)(keys[i]) ==>
      StudentRow(recs, keys[i], cpt, schedule, parse).Ok?
      && RowsFrom(recs, keys, i + 1, cpt + 1, checked, schedule, parse).Ok?
      && RowsFrom(recs, keys, i, cpt, checked, schedule, parse).value
         == [StudentRow(recs, keys[i], cpt, schedule, parse).value]
            + RowsFrom(recs, keys, i + 1, cpt + 1, checked, schedule, parse).value
  {
  }

  /** `res` holds, for each of the students `sel`, its line on grid rows `cpt`, `cpt + 1`, ... */
  predicate Lines(res: seq<StudentResult>, sel: seq<Key>, cpt: nat, recs: seq<Activity>,
                  schedule: Schedule, parse: string -> Bound)
  {
    |res| == |sel|
    && forall j :: 0 <= j < |res| ==>
         res[j].gridRow == cpt + j && res[j].name == Label(sel[j])
         && StudentRow(recs, sel[j], cpt + j, schedule, parse) == Ok(res[j])
  }

  lemma LinesCons(row: StudentResult, rest: seq<StudentResult>, k: Key, sel: seq<Key>, cpt: nat,
                  recs: seq<Activity>, schedule: Schedule, parse: string -> Bound)
    requires StudentRow(recs, k, cpt, schedule, parse) == Ok(row)
    requires Lines(rest, sel, cpt + 1, recs, schedule, parse)
    ensures Lines([row] + rest, [k] + sel, cpt, recs, schedule, parse)
  {
    StudentRowHead(recs, k, cpt, schedule, parse);
    var res := [row] + rest;
    forall j | 0 < j < |res|
      ensures res[j].gridRow == cpt + j && res[j].name == Label(([k] + sel)[j])
      ensures StudentRow(recs, ([k] + sel)[j], cpt + j, schedule, parse) == Ok(res[j])
    {
      assert res[j] == rest[j - 1] && ([k] + sel)[j] == sel[j - 1];
    }
  }

  /**
   * Groups `i`, ... of `keys`: one line per selected group, in group order, on the grid rows
   * `cpt`, `cpt + 1`, ...
   */
  lemma {:induction false} RowsFromSelected(recs: seq<Activity>, keys: seq<Key>, i: nat, cpt: nat,
                                            checked: seq<string>, schedule: Schedule, parse: string -> Bound)
    requires i <= |keys| && RowsFrom(recs, keys, i, cpt, checked, schedule, parse).Ok?
    ensures Lines(RowsFrom(recs, keys, i, cpt, checked, schedule, parse).value,
                  Filter(keys[i..], Selected(checked)), cpt, recs, schedule, parse)
    decreases |keys| - i
  {
    if i < |keys| {
      var p := Selected(checked);
      assert keys[i..] == [keys[i]] + keys[i + 1..];
      var sel' := Filter(keys[i + 1..], p);
      RowsFromCons(recs, keys, i, cpt, checked, schedule, parse);
      if !p(keys[i]) {
        assert Filter(keys[i..], p) == sel';
        RowsFromSelected(recs, keys, i + 1, cpt, checked, schedule, parse);
      } else {
        assert Filter(keys[i..], p) == [keys[i]] + sel';
        RowsFromSelected(recs, keys, i + 1, cpt + 1, checked, schedule, parse);
        LinesCons(StudentRow(recs, keys[i], cpt, schedule, parse).value,
                  RowsFrom(recs, keys, i + 1, cpt + 1, checked, schedule, parse).value,
                  keys[i], sel', cpt, recs, schedule, parse);
      }
    }
  }

  /**
   * A successful computation emits one line per student of the table whose name is checked, in
   * group order, on grid rows 1, 2, ...
   */
  lemma ComputeRows(data: Option<DataFrame>, expected: set<string>, checked: seq<string>,
                    schedule: Schedule, parse: string -> Bound)
    requires ComputeSpec(data, expected, checked, schedule, parse).Ok?
    ensures data.Some? && Records(data.value).Ok?
    ensures var recs := Records(data.value).value;
      var res := ComputeSpec(data, expected, checked, schedule, parse).value;
      var sel := Filter(GroupKeys(Students(recs)), Selected(checked));
      |res| == |sel|
      && forall j :: 0 <= j < |res| ==>
           res[j].gridRow == j + 1 && res[j].name == Label(sel[j])
           && StudentRow(recs, sel[j], j + 1, schedule, parse) == Ok(res[j])
  {
    ComputeIsRows(data, expected, checked, schedule, parse);
    var recs := Records(data.value).value;
    RowsFromStart(recs, GroupKeys(Students(recs)), checked, schedule, parse);
  }

  lemma RowsFromStart(recs: seq<Activity>, keys: seq<Key>, checked: seq<string>,
                      schedule: Schedule, parse: string -> Bound)
    requires RowsFrom(recs, keys, 0, 1, checked, schedule, parse).Ok?
    ensures var res := RowsFrom(recs, keys, 0, 1, checked, schedule, parse).value;
      var sel := Filter(keys, Selected(checked));
      |res| == |sel|
      && forall j :: 0 <= j < |res| ==>
           res[j].gridRow == j + 1 && res[j].name == Label(sel[j])
           && StudentRow(recs, sel[j], j + 1, schedule, parse) == Ok(res[j])
  {
    assert keys[0..] == keys;
    RowsFromSelected(recs, keys, 0, 1, checked, schedule, parse);
  }

  lemma ComputeIsRows(data: Option<DataFrame>, expected: set<string>, checked: seq<string>,
                      schedule: Schedule, parse: string -> Bound)
    requires ComputeSpec(data, expected, checked, schedule, parse).Ok?
    ensures data.Some? && Records(data.value).Ok?
    ensures var recs := Records(data.value).value;
      ComputeSpec(data, expected, checked, schedule, parse)
      == RowsFrom(recs, GroupKeys(Students(recs)), 0, 1, checked, schedule, parse)
  {
  }

  /** The selected groups are the students of the table whose name is checked. */
  lemma SelectedMembers(recs: seq<Activity>, checked: seq<string>, x: string)
    ensures var sel := Filter(GroupKeys(Students(recs)), Selected(checked));
      (exists j :: 0 <= j < |sel| && Label(sel[j]) == x) <==>
      x in checked && exists a :: a in recs && Label(a.student) == x
  {
    var sel := Filter(GroupKeys(Students(recs)), Selected(checked));
    if exists j :: 0 <= j < |sel| && Label(sel[j]) == x {
      var j :| 0 <= j < |sel| && Label(sel[j]) == x;
      SelectedIsStudent(recs, checked, sel[j]);
    }
    if x in checked && exists a :: a in recs && Label(a.student) == x {
      var a :| a in recs && Label(a.student) == x;
      StudentIsSelected(recs, checked, a);
      var j :| 0 <= j < |sel| && sel[j] == a.student;
      assert Label(sel[j]) == x;
    }
  }

  lemma SelectedIsStudent(recs: seq<Activity>, checked: seq<string>, k: Key)
    requires k in Filter(GroupKeys(Students(recs)), Selected(checked))
    ensures Label(k) in checked
    ensures exists a :: a in recs && a.student == k
  {
    var keys := GroupKeys(Students(recs));
    assert Selected(checked)(k) && k in keys;
    var i :| 0 <= i < |recs| && Students(recs)[i] == k;
    assert recs[i] in recs;
  }

  lemma StudentIsSelected(recs: seq<Activity>, checked: seq<string>, a: Activity)
    requires a in recs && Label(a.student) in checked
    ensures a.student in Filter(GroupKeys(Students(recs)), Selected(checked))
  {
    var i :| 0 <= i < |recs| && recs[i] == a;
    assert Students(recs)[i] == a.student;
    assert a.student in GroupKeys(Students(recs));
    assert Selected(checked)(a.student);
  }

  /** A name gets a line exactly when it is checked and some row belongs to a student so named. */
  lemma ComputeNames(data: Option<DataFrame>, expected: set<string>, checked: seq<string>,
                     schedule: Schedule, parse: string -> Bound, x: string)
    requires ComputeSpec(data, expected, checked, schedule, parse).Ok?
    ensures data.Some? && Records(data.value).Ok?
    ensures var res := ComputeSpec(data, expected, checked, schedule, parse).value;
      (exists j :: 0 <= j < |res| && res[j].name == x) <==>
      x in checked && exists a :: a in Records(data.value).value && Label(a.student) == x
  {
    ComputeRows(data, expected, checked, schedule, parse);
    SelectedMembers(Records(data.value).value, checked, x);
  }

  /**
   * When at least one student of the table is checked, an interval bound that cannot be read as
   * a time makes the computation raise.
   */
  lemma ComputeRefusesUnparseable(data: Option<DataFrame>, expected: set<string>, checked: seq<string>,
                                  schedule: Schedule, parse: string -> Bound)
    requires data.Some? && Records(data.value).Ok?
    requires exists a :: a in Records(data.value).value && Label(a.student) in checked
    requires HasUnparseable(schedule, parse)
    ensures ComputeSpec(data, expected, checked, schedule, parse).Err?
  {
    if ComputeSpec(data, expected, checked, schedule, parse).Ok? {
      var recs := Records(data.value).value;
      var a :| a in recs && Label(a.student) in checked;
      SelectedMembers(recs, checked, Label(a.student));
      ComputeRows(data, expected, checked, schedule, parse);
      var sel := Filter(GroupKeys(Students(recs)), Selected(checked));
      MatchedOk(CompletedRows(recs, sel[0]), schedule, parse);
    }
  }
}
