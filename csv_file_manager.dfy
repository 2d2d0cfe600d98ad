/**
 * `open_csv` and `load_data` of lib/csv_file_manager.py: choose a file, read it, check its
 * columns, convert dates and scores, move four columns to fixed places and rebuild the student
 * filter. File reading, date parsing and float parsing are parameters (an `Env`).
 */
module CsvFileManager {
  import opened Wrappers
  import opened Seqs
  import opened Frame
  import opened WidgetQuery

  // ----------------------------------------------------------------------------------------------
  // File name check (open_csv)
  // ----------------------------------------------------------------------------------------------

  /** `str.lower` on one character, for the characters that can lower to one of ".csv". */
  function Lower(c: char): char {
    if 'A' <= c <= 'Z' then (c as int + 32) as char else c
  }

  function LowerAll(s: string): (r: string)
    ensures |r| == |s| && forall i :: 0 <= i < |s| ==> r[i] == Lower(s[i])
  {
    if s == [] then [] else [Lower(s[0])] + LowerAll(s[1..])
  }

  /** `filename.lower().endswith('.csv')`. */
  predicate IsCsvName(filename: string) {
    |filename| >= 4 && LowerAll(filename[|filename| - 4..]) == ".csv"
  }

  /** A name is accepted exactly when its last four characters spell ".csv" in any case. */
  lemma CsvSuffix(stem: string, ext: string)
    requires |ext| == 4
    ensures IsCsvName(stem + ext) <==> LowerAll(ext) == ".csv"
  {
    assert (stem + ext)[|stem + ext| - 4..] == ext;
  }

  /** Both spellings of the extension, lower and upper case, are accepted. */
  lemma CsvExtensions(stem: string)
    ensures IsCsvName(stem + ".csv") && IsCsvName(stem + ".CSV")
  {
    CsvSuffix(stem, ".csv");
    CsvSuffix(stem, ".CSV");
    assert LowerAll(".csv") == ".csv" by {
      assert forall i :: 0 <= i < 4 ==> Lower(".csv"[i]) == ".csv"[i];
    }
    assert LowerAll(".CSV") == ".csv" by {
      assert Lower('C') == 'c' && Lower('S') == 's' && Lower('V') == 'v';
      assert forall i :: 0 <= i < 4 ==> Lower(".CSV"[i]) == ".csv"[i];
    }
  }

  // ----------------------------------------------------------------------------------------------
  // Column check and cell conversion (load_data)
  // ----------------------------------------------------------------------------------------------

  /** `set(EXPECTED_COLUMNS).difference(columns)`. */
  function Missing(expected: set<string>, t: Table): (m: set<string>)
    ensures forall c :: c in m <==> c in expected && Find(t.columns, c).None?
  {
    expected - ColumnNames(t.columns)
  }

  /** `x.replace(',', '.')`. */
  function CommaToDot(s: string): (r: string)
    ensures |r| == |s|
    ensures forall i :: 0 <= i < |s| ==> r[i] == if s[i] == ',' then '.' else s[i]
    ensures ',' !in r
  {
    if s == [] then [] else [if s[0] == ',' then '.' else s[0]] + CommaToDot(s[1..])
  }

  /** `to_datetime(..., errors='raise')` on one cell; a timestamp stays as it is. */
  function DateCell(parse: string -> Option<int>, c: Cell): (r: Option<Cell>)
    ensures r.Some? ==> r.value.Time?
    ensures c.Text? ==> (r.Some? <==> parse(c.text).Some?)
    ensures c.Text? && r.Some? ==> r.value == Time(parse(c.text).value)
    ensures c.Time? ==> r == Some(c)
    ensures c.Score? ==> r.None?
  {
    match c
    case Text(s) => (match parse(s) case Some(t) => Some(Time(t)) case None => None)
    case Time(_) => Some(c)
    case Score(_) => None
  }

  /** `float(x.replace(',', '.'))` on one cell, the float kept in hundredths. */
  function ScoreCell(parse: string -> Option<int>, c: Cell): (r: Option<Cell>)
    ensures r.Some? <==> c.Text? && parse(CommaToDot(c.text)).Some?
    ensures r.Some? ==> r.value == Score(parse(CommaToDot(c.text)).value)
  {
    match c
    case Text(s) => (match parse(CommaToDot(s)) case Some(h) => Some(Score(h)) case None => None)
    case _ => None
  }

  /** A conversion applied to every cell of a column; one failing cell fails it all. */
  function ConvertAll(cells: seq<Cell>, conv: Cell -> Option<Cell>): (r: Option<seq<Cell>>)
    ensures r.Some? ==> |r.value| == |cells|
    ensures r.Some? ==> forall i :: 0 <= i < |cells| ==> conv(cells[i]) == Some(r.value[i])
    ensures r.None? <==> exists i :: 0 <= i < |cells| && conv(cells[i]).None?
  {
    if cells == [] then Some([])
    else
      match conv(cells[0])
      case None => None
      case Some(c) =>
        match ConvertAll(cells[1..], conv)
        case None =>
          var i :| 0 <= i < |cells| - 1 && conv(cells[1..][i]).None?;
          assert cells[i + 1] == cells[1..][i];
          None
        case Some(rest) =>
          assert forall i :: 1 <= i < |cells| ==> cells[i] == cells[1..][i - 1];
          Some([c] + rest)
  }

  /** `data[name] = conversion(data[name])`: the column is replaced where it stands. */
  function ConvertColumn(t: DataFrame, name: string, conv: Cell -> Option<Cell>, failure: Error)
    : (r: Result<DataFrame, Error>)
    ensures r.Ok? <==> exists p :: FirstNamed(t.columns, name, p) && ConvertAll(t.columns[p].cells, conv).Some?
    ensures r.Ok? ==>
      exists p :: FirstNamed(t.columns, name, p) &&
        r.value.columns == t.columns[p := Column(name, ConvertAll(t.columns[p].cells, conv).value)]
    ensures r.Err? ==> r.error == (if name in ColumnNames(t.columns) then failure else ColumnNotFound(name))
    ensures r.Ok? ==> r.value.height == t.height && |r.value.columns| == |t.columns|
    ensures r.Ok? ==> forall j :: 0 <= j < |t.columns| ==> r.value.columns[j].name == t.columns[j].name
    ensures r.Ok? ==> forall j :: 0 <= j < |t.columns| && t.columns[j].name != name ==>
      r.value.columns[j] == t.columns[j]
  {
    match Find(t.columns, name)
    case None =>
      assert forall q :: 0 <= q < |t.columns| ==> t.columns[q] in t.columns;
      Err(ColumnNotFound(name))
    case Some(p) =>
      assert t.columns[p] in t.columns;
      assert FirstNamed(t.columns, name, p);
      assert forall q :: FirstNamed(t.columns, name, q) ==> q == p;
      match ConvertAll(t.columns[p].cells, conv)
      case None => Err(failure)
      case Some(cells) =>
        var cols := t.columns[p := Column(name, cells)];
        assert forall c :: c in cols ==> c == Column(name, cells) || c in t.columns;
        Ok(Table(cols, t.height))
  }

  // ----------------------------------------------------------------------------------------------
  // Column reorder (load_data, lines 223-235)
  // ----------------------------------------------------------------------------------------------

  /** The columns moved by the reorder loop and the positions they are inserted at. */
  const Targets: seq<string> := [Status, Started, Completed, Note]
  const Positions: seq<nat> := [2, 3, 4, 5]

  predicate IsOther(c: Column) {
    c.name !in Targets
  }

  /** The columns after a pop/insert, and the exception that stopped the loop, if any. */
  datatype Reordered = Reordered(columns: seq<Column>, failure: Option<Error>)

  /** `removed = data.pop(name); data.insert(idx, name, removed)`. */
  function Step(cols: seq<Column>, name: string, idx: nat): (r: Reordered)
    ensures r.failure == Some(ColumnNotFound(name)) <==> name !in ColumnNames(cols)
    ensures r.failure.None? <==> name in ColumnNames(cols) && idx < |cols|
    ensures r.failure.None? ==> |r.columns| == |cols| && idx < |cols| && r.columns[idx].name == name
  {
    match Find(cols, name)
    case None => Reordered(cols, Some(ColumnNotFound(name)))
    case Some(p) =>
      var rest := cols[..p] + cols[p + 1..];
      if idx <= |rest| then Reordered(rest[..idx] + [cols[p]] + rest[idx..], None)
      else Reordered(rest, Some(InsertOutOfRange(idx)))
  }

  /** Steps `i`, ..., 3 of the loop, stopping at the first exception. */
  function ReorderFrom(cols: seq<Column>, i: nat): (r: Reordered)
    requires i <= 4
    ensures r.failure.None? ==> |r.columns| == |cols|
    ensures r.failure.Some? ==> exists k :: i <= k < 4 && r.failure.value in {ColumnNotFound(Targets[k]), InsertOutOfRange(Positions[k])}
    decreases 4 - i
  {
    if i == 4 then Reordered(cols, None)
    else
      var s := Step(cols, Targets[i], Positions[i]);
      if s.failure.Some? then s else ReorderFrom(s.columns, i + 1)
  }

  /** The reorder loop itself. */
  method ReorderColumns(cols: seq<Column>) returns (r: seq<Column>, failure: Option<Error>)
    ensures Reordered(r, failure) == ReorderFrom(cols, 0)
  {
    r, failure := cols, None;
    for i := 0 to 4
      invariant ReorderFrom(r, i) == ReorderFrom(cols, 0)
    {
      var col, idx := Targets[i], Positions[i];
      ghost var before := r;
      var p := Find(r, col);
      if p.None? {
        failure := Some(ColumnNotFound(col));
        return;
      }
      var removed := r[p.value];
      r := r[..p.value] + r[p.value + 1..];
      if idx > |r| {
        failure := Some(InsertOutOfRange(idx));
        return;
      }
      r := r[..idx] + [removed] + r[idx..];
      assert Step(before, col, idx) == Reordered(r, None);
    }
  }

  /** A successful step is a permutation of the columns. */
  lemma StepPermutes(cols: seq<Column>, name: string, idx: nat)
    requires Step(cols, name, idx).failure.None?
    ensures |Step(cols, name, idx).columns| == |cols|
    ensures multiset(Step(cols, name, idx).columns) == multiset(cols)
  {
    var p := Find(cols, name).value;
    var rest := cols[..p] + cols[p + 1..];
    var r := rest[..idx] + [cols[p]] + rest[idx..];
    assert cols == cols[..p] + [cols[p]] + cols[p + 1..];
    assert rest == rest[..idx] + rest[idx..];
    calc {
      multiset(r);
      multiset(rest[..idx]) + multiset{cols[p]} + multiset(rest[idx..]);
      multiset(rest) + multiset{cols[p]};
      multiset(cols[..p]) + multiset(cols[p + 1..]) + multiset{cols[p]};
      multiset(cols);
    }
  }

  /** A step whose column sits at or after `idx` succeeds, moves it to `idx` and keeps the prefix. */
  lemma StepAt(cols: seq<Column>, name: string, idx: nat, p: nat)
    requires Find(cols, name) == Some(p) && idx <= p
    ensures Step(cols, name, idx).failure.None?
    ensures Step(cols, name, idx).columns[..idx] == cols[..idx]
    ensures |Step(cols, name, idx).columns| == |cols|
    ensures Step(cols, name, idx).columns[idx] == cols[p]
  {
    var rest := cols[..p] + cols[p + 1..];
    var r := rest[..idx] + [cols[p]] + rest[idx..];
    assert rest[..idx] == cols[..idx];
    assert r[..idx] == rest[..idx];
  }

  /** Taking a moved column out and putting it back at `idx` keeps the other columns in order. */
  lemma FilterMove(pre: seq<Column>, x: Column, post: seq<Column>, idx: nat)
    requires !IsOther(x) && idx <= |pre + post|
    ensures Filter((pre + post)[..idx] + [x] + (pre + post)[idx..], IsOther) == Filter(pre + [x] + post, IsOther)
  {
    var rest := pre + post;
    assert rest == rest[..idx] + rest[idx..];
    FilterSkip(rest[..idx], x, rest[idx..], IsOther);
    FilterSkip(pre, x, post, IsOther);
  }

  /** A successful step on a target column keeps the other columns in their order. */
  lemma StepKeepsOthers(cols: seq<Column>, k: nat)
    requires k < 4 && Step(cols, Targets[k], Positions[k]).failure.None?
    ensures Filter(Step(cols, Targets[k], Positions[k]).columns, IsOther) == Filter(cols, IsOther)
  {
    var p := Find(cols, Targets[k]).value;
    assert cols == cols[..p] + [cols[p]] + cols[p + 1..];
    FilterMove(cols[..p], cols[p], cols[p + 1..], Positions[k]);
  }

  lemma StepSubset(cols: seq<Column>, name: string, idx: nat)
    ensures forall c :: c in Step(cols, name, idx).columns ==> c in cols
  {
    match Find(cols, name)
    case None =>
    case Some(p) =>
      assert cols == cols[..p] + [cols[p]] + cols[p + 1..];
  }

  /** Whatever happens, the reorder yields columns of the input (so the table stays rectangular). */
  lemma {:induction false} ReorderSubset(cols: seq<Column>, i: nat)
    requires i <= 4
    ensures forall c :: c in ReorderFrom(cols, i).columns ==> c in cols
    decreases 4 - i
  {
    if i < 4 {
      var s := Step(cols, Targets[i], Positions[i]);
      StepSubset(cols, Targets[i], Positions[i]);
      if s.failure.None? {
        ReorderSubset(s.columns, i + 1);
      }
    }
  }

  /** A completed reorder is a permutation that keeps the non-target columns in their order. */
  lemma {:induction false} ReorderPermutes(cols: seq<Column>, i: nat)
    requires i <= 4 && ReorderFrom(cols, i).failure.None?
    ensures multiset(ReorderFrom(cols, i).columns) == multiset(cols)
    ensures |ReorderFrom(cols, i).columns| == |cols|
    ensures Filter(ReorderFrom(cols, i).columns, IsOther) == Filter(cols, IsOther)
    decreases 4 - i
  {
    if i < 4 {
      var s := Step(cols, Targets[i], Positions[i]);
      StepPermutes(cols, Targets[i], Positions[i]);
      ReorderPermutes(s.columns, i + 1);
      StepKeepsOthers(cols, i);
    }
  }

  lemma TargetsDistinct()
    ensures forall k, l :: 0 <= k < l < 4 ==> Targets[k] != Targets[l]
    ensures forall k :: 0 <= k < 4 ==> Positions[k] == 2 + k
  {
  }

  /** The hypotheses on `cur` for steps `i`, ..., 3: front columns kept, first `i` targets placed. */
  predicate Placed(cols0: seq<Column>, cur: seq<Column>, i: nat)
    requires i <= 4
  {
    2 <= |cols0| && 2 <= |cur| && cur[..2] == cols0[..2]
    && (forall j :: 0 <= j < 2 ==> cols0[j].name !in Targets)
    && 2 + i <= |cur| && (forall k :: 0 <= k < i ==> cur[2 + k].name == Targets[k])
    && (forall k :: i <= k < 4 ==> Targets[k] in ColumnNames(cur))
  }

  /** Step `i` on placed columns succeeds and places one more target. */
  lemma PlacedStep(cols0: seq<Column>, cur: seq<Column>, i: nat)
    requires i < 4 && Placed(cols0, cur, i)
    ensures Step(cur, Targets[i], Positions[i]).failure.None?
    ensures |Step(cur, Targets[i], Positions[i]).columns| == |cur|
    ensures Placed(cols0, Step(cur, Targets[i], Positions[i]).columns, i + 1)
  {
    TargetsDistinct();
    var name := Targets[i];
    var p := Find(cur, name).value;
    assert name in Targets;
    forall j | 0 <= j < 2 + i && j < |cur| ensures cur[j].name != name {
      if j < 2 {
        assert cur[j] == cur[..2][j] == cols0[..2][j] == cols0[j];
      } else {
        var k := j - 2;
        assert cur[2 + k].name == Targets[k];
      }
    }
    StepAt(cur, name, 2 + i, p);
    StepPermutes(cur, name, 2 + i);
    var s := Step(cur, name, Positions[i]).columns;
    forall k | i + 1 <= k < 4 ensures Targets[k] in ColumnNames(s) {
      var c :| c in cur && c.name == Targets[k];
      assert c in multiset(cur);
    }
    forall k | 0 <= k < i + 1 ensures s[2 + k].name == Targets[k] {
      if k < i {
        assert s[2 + k] == s[..2 + i][2 + k];
      }
    }
    assert s[..2] == s[..2 + i][..2];
  }

  /** Steps `i`, ..., 3 on placed columns succeed and leave every target at its position. */
  lemma {:induction false} FixedFrom(cols0: seq<Column>, cur: seq<Column>, i: nat)
    requires i <= 4 && Placed(cols0, cur, i)
    ensures |cur| >= 6
    ensures ReorderFrom(cur, i).failure.None?
    ensures |ReorderFrom(cur, i).columns| == |cur|
    ensures ReorderFrom(cur, i).columns[..2] == cols0[..2]
    ensures forall k :: 0 <= k < 4 ==> ReorderFrom(cur, i).columns[2 + k].name == Targets[k]
    decreases 4 - i
  {
    if i < 4 {
      PlacedStep(cols0, cur, i);
      FixedFrom(cols0, Step(cur, Targets[i], Positions[i]).columns, i + 1);
    }
  }

  /**
   * When no target column is among the first two, the loop succeeds and leaves Statut, Commencé,
   * Terminé and Note/20,00 at positions 2, 3, 4 and 5, behind the untouched first two columns.
   */
  lemma ReorderFixedPositions(cols: seq<Column>)
    requires forall k :: 0 <= k < 4 ==> Targets[k] in ColumnNames(cols)
    requires forall j :: 0 <= j < 2 && j < |cols| ==> cols[j].name !in Targets
    ensures |cols| >= 6
    ensures ReorderFrom(cols, 0).failure.None?
    ensures |ReorderFrom(cols, 0).columns| == |cols|
    ensures ReorderFrom(cols, 0).columns[..2] == cols[..2]
    ensures forall k :: 0 <= k < 4 ==> ReorderFrom(cols, 0).columns[2 + k].name == Targets[k]
  {
    assert Targets[0] == Status;
    var p := Find(cols, Status).value;
    assert cols[p].name in Targets;
    assert Placed(cols, cols, 0);
    FixedFrom(cols, cols, 0);
  }

  /**
   * The front condition of `ReorderFixedPositions` cannot be dropped: with Commencé in front,
   * this layout ends with Statut at index 1, not 2.
   */
  lemma ReorderTargetFirst()
    ensures var cols := [Column(Started, []), Column("a", []), Column(Status, []),
                         Column("b", []), Column(Completed, []), Column(Note, [])];
      ReorderFrom(cols, 0).failure.None? && |ReorderFrom(cols, 0).columns| == 6
      && ReorderFrom(cols, 0).columns[1].name == Status
  {
    var cols := [Column(Started, []), Column("a", []), Column(Status, []),
                 Column("b", []), Column(Completed, []), Column(Note, [])];
    ReorderStartedFirst(cols);
  }

  /**
   * Columns Commencé, x, Statut, y, Terminé, Note/20,00: inserting Statut at 2 leaves it there,
   * then popping Commencé shifts it to 1, where it stays.
   */
  lemma ReorderStartedFirst(cols: seq<Column>)
    requires |cols| == 6 && cols[0].name == Started && cols[1].name !in Targets
    requires cols[2].name == Status && cols[3].name !in Targets
    requires cols[4].name == Completed && cols[5].name == Note
    ensures ReorderFrom(cols, 0).failure.None? && |ReorderFrom(cols, 0).columns| == 6
    ensures ReorderFrom(cols, 0).columns[1].name == Status
  {
    var moved := cols[1..4] + [cols[0]] + cols[4..];
    ExampleStatus(cols);
    ExampleStarted(cols, moved);
    assert moved[0] == cols[1] && moved[1] == cols[2] && moved[2] == cols[3] && moved[3] == cols[0];
    assert moved[4] == cols[4] && moved[5] == cols[5];
    ExampleRest(moved);
    assert ReorderFrom(moved, 2) == Reordered(moved, None);
    assert ReorderFrom(cols, 1) == Reordered(moved, None);
  }

  /** Helper of `ReorderStartedFirst`: the Statut step finds Statut at index 2 and puts it back there. */
  lemma ExampleStatus(cols: seq<Column>)
    requires |cols| == 6 && cols[2].name == Status
    requires cols[0].name == Started && cols[1].name !in Targets
    ensures Step(cols, Targets[0], Positions[0]) == Reordered(cols, None)
  {
    FindAt(cols, Status, 2);
    var rest := cols[..2] + cols[3..];
    assert rest[..2] + [cols[2]] + rest[2..] == cols;
  }

  /** Helper of `ReorderStartedFirst`: the Commencé step pops it from the front and inserts it at 3. */
  lemma ExampleStarted(cols: seq<Column>, moved: seq<Column>)
    requires |cols| == 6 && cols[0].name == Started
    requires moved == cols[1..4] + [cols[0]] + cols[4..]
    ensures Step(cols, Targets[1], Positions[1]) == Reordered(moved, None)
  {
    FindAt(cols, Started, 0);
    var rest := cols[1..];
    assert rest[..3] == cols[1..4] && rest[3..] == cols[4..];
  }

  /** Helper of `ReorderStartedFirst`: the columns after its first two steps, x, Statut, y, Commencé, ... */
  predicate ExampleMoved(moved: seq<Column>) {
    |moved| == 6 && moved[0].name !in Targets && moved[1].name == Status && moved[2].name !in Targets
    && moved[3].name == Started && moved[4].name == Completed && moved[5].name == Note
  }

  /** Helper of `ReorderStartedFirst`: its last two steps change nothing. */
  lemma ExampleRest(moved: seq<Column>)
    requires ExampleMoved(moved)
    ensures Step(moved, Targets[2], Positions[2]) == Reordered(moved, None)
    ensures Step(moved, Targets[3], Positions[3]) == Reordered(moved, None)
  {
    ExampleCompleted(moved);
    ExampleNote(moved);
  }

  /** Helper of `ExampleRest`: the Terminé step finds it at 4 and puts it back there. */
  lemma ExampleCompleted(moved: seq<Column>)
    requires ExampleMoved(moved)
    ensures Step(moved, Targets[2], Positions[2]) == Reordered(moved, None)
  {
    FindAt(moved, Completed, 4);
    var rest := moved[..4] + moved[5..];
    assert rest[..4] + [moved[4]] + rest[4..] == moved;
  }

  /** Helper of `ExampleRest`: the Note/20,00 step finds it at 5 and puts it back there. */
  lemma ExampleNote(moved: seq<Column>)
    requires ExampleMoved(moved)
    ensures Step(moved, Targets[3], Positions[3]) == Reordered(moved, None)
  {
    FindAt(moved, Note, 5);
    var rest := moved[..5];
    assert rest + [moved[5]] == moved;
  }

  // ----------------------------------------------------------------------------------------------
  // The load pipeline as a function of its inputs
  // ----------------------------------------------------------------------------------------------

  /**
   * What `load_data` reads besides the widgets: the CSV files by path (as `read_csv` would return
   * them), the expected columns, and the two text parsers (`to_datetime` with the French format,
   * `float`).
   */
  datatype Env = Env(files: map<string, DataFrame>, expected: set<string>,
                     parseDate: string -> Option<int>, parseScore: string -> Option<int>)

  /** What `open_csv` and `load_data` change: `parent.data`, the file label, the filter entries. */
  datatype Session = Session(data: Option<DataFrame>, fileText: string, filter: seq<Entry>)

  /** The state after a call and the exception it ended with, if any. */
  datatype Outcome = Outcome(session: Session, failure: Option<Error>)

  function DateConv(env: Env): Cell -> Option<Cell> {
    c => DateCell(env.parseDate, c)
  }

  function ScoreConv(env: Env): Cell -> Option<Cell> {
    c => ScoreCell(env.parseScore, c)
  }

  /** The filter entries added for the students `keys`: "last first", checked. */
  function FilterEntries(keys: seq<Key>): (e: seq<Entry>)
    ensures |e| == |keys|
    ensures forall i :: 0 <= i < |keys| ==> e[i] == (Label(keys[i]), true)
  {
    if keys == [] then []
    else
      var n := |keys| - 1;
      FilterEntries(keys[..n]) + [(Label(keys[n]), true)]
  }

  /** The table built from reordered columns (still rectangular: its columns come from `t`). */
  function Rebuilt(t: DataFrame, cols: seq<Column>): (r: DataFrame)
    requires forall c :: c in cols ==> c in t.columns
    ensures r.columns == cols && r.height == t.height
  {
    Table(cols, t.height)
  }

  /** The last table assigned to `parent.data` by the conversions and the reorder, and what stopped them. */
  datatype Stage = Stage(table: DataFrame, failure: Option<Error>)

  /** The exceptions the three conversions can raise: a missing column or a cell that does not parse. */
  const ConversionErrors: set<Error> := {ColumnNotFound(Started), ColumnNotFound(Completed), ColumnNotFound(Note),
                                          DateParse(Started), DateParse(Completed), ScoreParse}

  /** Lines 212-219: the two date columns, then the score column, each converted where it stands. */
  function Converted(env: Env, raw: DataFrame): (p: Stage)
    ensures p.table.height == raw.height
    ensures p.failure.Some? ==> p.failure.value in ConversionErrors
  {
    match ConvertColumn(raw, Started, DateConv(env), DateParse(Started))
    case Err(e) => Stage(raw, Some(e))
    case Ok(t1) =>
      match ConvertColumn(t1, Completed, DateConv(env), DateParse(Completed))
      case Err(e) => Stage(t1, Some(e))
      case Ok(t2) =>
        match ConvertColumn(t2, Note, ScoreConv(env), ScoreParse)
        case Err(e) => Stage(t2, Some(e))
        case Ok(t3) => Stage(t3, None)
  }

  /** Lines 212-235 on a table holding every expected column: conversions, then the reorder. */
  function Prepared(env: Env, raw: DataFrame): (p: Stage)
    ensures p.table.height == raw.height
  {
    var c := Converted(env, raw);
    if c.failure.Some? then c
    else
      ReorderSubset(c.table.columns, 0);
      var re := ReorderFrom(c.table.columns, 0);
      Stage(Rebuilt(c.table, re.columns), re.failure)
  }

  /**
   * `load_data` reading `path`: each assignment to `parent.data` happens before the next step
   * can raise, so a failure leaves the last table assigned; the filter is rebuilt only at the end.
   */
  function Loaded(env: Env, path: string, s: Session): (o: Outcome)
    ensures o.session.fileText == s.fileText
    ensures o.session.data != s.data ==> path in env.files
    ensures o.failure.None? ==> o.session.data.Some? && forall e :: e in o.session.filter ==> e.1
  {
    if path !in env.files then Outcome(s, Some(FileNotFound(path)))
    else
      var raw := env.files[path];
      var missing := Missing(env.expected, raw);
      if missing != {} then Outcome(s.(data := Some(raw)), Some(MissingColumns(missing)))
      else
        var p := Prepared(env, raw);
        if p.failure.Some? then Outcome(s.(data := Some(p.table)), p.failure)
        else
          match StudentKeys(p.table)
          case Err(e) => Outcome(s.(data := Some(p.table), filter := []), Some(e))
          case Ok(keys) => Outcome(s.(data := Some(p.table), filter := FilterEntries(GroupKeys(keys))), None)
  }

  /** The label `open_csv` shows for the chosen file. */
  function FileLabel(filename: string): string {
    "File: " + filename
  }

  /** `open_csv` given the dialog's answer, loading the chosen file. */
  function Opened(env: Env, filename: string, s: Session): (o: Outcome)
    ensures o.session.data != s.data ==> IsCsvName(filename) && filename in env.files
    ensures o.session.fileText != s.fileText ==> o.session.fileText == FileLabel(filename)
  {
    if filename == "" then Outcome(s, None)
    else if !IsCsvName(filename) then Outcome(s, Some(UnsupportedFileType(filename)))
    else Loaded(env, filename, s.(fileText := FileLabel(filename)))
  }

  /** `open_csv` as written: `load_data` reads back the label, prefix included, as the path. */
  function OpenedAsWritten(env: Env, filename: string, s: Session): (o: Outcome)
    ensures o.session.data != s.data ==> IsCsvName(filename) && FileLabel(filename) in env.files
    ensures o.session.fileText != s.fileText ==> o.session.fileText == FileLabel(filename)
  {
    if filename == "" then Outcome(s, None)
    else if !IsCsvName(filename) then Outcome(s, Some(UnsupportedFileType(filename)))
    else
      var s' := s.(fileText := FileLabel(filename));
      Loaded(env, s'.fileText, s')
  }

  // ----------------------------------------------------------------------------------------------
  // Properties of the load pipeline
  // ----------------------------------------------------------------------------------------------

  /** Columns with the same names position by position have the same set of names. */
  lemma SameNames(a: seq<Column>, b: seq<Column>)
    requires |a| == |b| && forall j :: 0 <= j < |a| ==> a[j].name == b[j].name
    ensures ColumnNames(a) == ColumnNames(b)
  {
    forall x | x in ColumnNames(a) ensures x in ColumnNames(b) {
      var c :| c in a && c.name == x;
      var j :| 0 <= j < |a| && a[j] == c;
      assert b[j] in b;
    }
    forall x | x in ColumnNames(b) ensures x in ColumnNames(a) {
      var c :| c in b && c.name == x;
      var j :| 0 <= j < |b| && b[j] == c;
      assert a[j] in a;
    }
  }

  /** A successful conversion keeps the rows and every column name where it stands. */
  lemma ConvertColumnNames(t: DataFrame, name: string, conv: Cell -> Option<Cell>, failure: Error)
    requires ConvertColumn(t, name, conv, failure).Ok?
    ensures var r := ConvertColumn(t, name, conv, failure).value;
      r.height == t.height && |r.columns| == |t.columns|
      && (forall j :: 0 <= j < |t.columns| ==> r.columns[j].name == t.columns[j].name)
      && ColumnNames(r.columns) == ColumnNames(t.columns) && name in ColumnNames(t.columns)
  {
    SameNames(t.columns, ConvertColumn(t, name, conv, failure).value.columns);
  }

  /** The three conversions keep the rows and every column name where it stands. */
  lemma ConvertedShape(env: Env, raw: DataFrame)
    requires Converted(env, raw).failure.None?
    ensures var t := Converted(env, raw).table;
      t.height == raw.height && |t.columns| == |raw.columns|
      && (forall j :: 0 <= j < |raw.columns| ==> t.columns[j].name == raw.columns[j].name)
      && ColumnNames(t.columns) == ColumnNames(raw.columns)
  {
    var r1 := ConvertColumn(raw, Started, DateConv(env), DateParse(Started));
    ConvertColumnNames(raw, Started, DateConv(env), DateParse(Started));
    var r2 := ConvertColumn(r1.value, Completed, DateConv(env), DateParse(Completed));
    ConvertColumnNames(r1.value, Completed, DateConv(env), DateParse(Completed));
    ConvertColumnNames(r2.value, Note, ScoreConv(env), ScoreParse);
  }

  /** A completed reorder keeps the set of column names, and Statut was among them. */
  lemma ReorderNames(cols: seq<Column>)
    requires ReorderFrom(cols, 0).failure.None?
    ensures |ReorderFrom(cols, 0).columns| == |cols|
    ensures ColumnNames(ReorderFrom(cols, 0).columns) == ColumnNames(cols)
    ensures Status in ColumnNames(cols)
  {
    ReorderPermutes(cols, 0);
    var r := ReorderFrom(cols, 0).columns;
    forall x | x in ColumnNames(r) ensures x in ColumnNames(cols) {
      var c :| c in r && c.name == x;
      assert c in multiset(r);
    }
    forall x | x in ColumnNames(cols) ensures x in ColumnNames(r) {
      var c :| c in cols && c.name == x;
      assert c in multiset(cols);
    }
    assert Step(cols, Targets[0], Positions[0]).failure.None?;
  }

  /** A successful preparation keeps the rows and the set of column names. */
  lemma PreparedShape(env: Env, raw: DataFrame)
    requires Prepared(env, raw).failure.None?
    ensures Prepared(env, raw).table.height == raw.height
    ensures |Prepared(env, raw).table.columns| == |raw.columns|
    ensures ColumnNames(Prepared(env, raw).table.columns) == ColumnNames(raw.columns)
  {
    ConvertedShape(env, raw);
    ReorderNames(Converted(env, raw).table.columns);
  }

  /**
   * The result of `load_data` by case: a missing file changes nothing; otherwise `parent.data` is
   * replaced by the file's table before any check, and a missing column stops the load with
   * exactly the missing names and the table unconverted; the file label is never touched.
   */
  lemma LoadCases(env: Env, path: string, s: Session)
    ensures path !in env.files ==> Loaded(env, path, s) == Outcome(s, Some(FileNotFound(path)))
    ensures path in env.files ==> Loaded(env, path, s).session.data.Some?
    ensures Loaded(env, path, s).session.fileText == s.fileText
    ensures path in env.files && Missing(env.expected, env.files[path]) != {} ==>
      Loaded(env, path, s) == Outcome(s.(data := Some(env.files[path])),
                                       Some(MissingColumns(Missing(env.expected, env.files[path]))))
    ensures Loaded(env, path, s).failure.Some? && Loaded(env, path, s).session.filter != s.filter ==>
      Loaded(env, path, s).session.filter == []
  {
  }

  /**
   * A load that raises nothing keeps every row and every column name of the file, and leaves in
   * the filter one checked entry per distinct (last name, first name) pair of the table: each
   * row's student appears, and there are as many entries as distinct students.
   */
  lemma LoadSucceeds(env: Env, path: string, s: Session)
    requires Loaded(env, path, s).failure.None?
    ensures path in env.files && Missing(env.expected, env.files[path]) == {}
    ensures var d := Loaded(env, path, s).session.data;
      d.Some? && d.value.height == env.files[path].height
      && ColumnNames(d.value.columns) == ColumnNames(env.files[path].columns)
    ensures var o := Loaded(env, path, s).session;
      StudentKeys(o.data.value).Ok?
      && (forall e :: e in o.filter ==> e.1)
      && |o.filter| == |set k | k in StudentKeys(o.data.value).value|
      && (forall i :: 0 <= i < o.data.value.height ==>
            (Label(StudentKeys(o.data.value).value[i]), true) in o.filter)
  {
    var raw := env.files[path];
    PreparedShape(env, raw);
    LoadedIsPrepared(env, path, s);
    var t := Prepared(env, raw).table;
    assert Loaded(env, path, s).session.filter == FilterEntries(GroupKeys(StudentKeys(t).value));
    FilterOfKeys(StudentKeys(t).value);
  }

  /** The rebuilt filter: every entry checked, one per distinct student, each row's included. */
  lemma FilterOfKeys(keys: seq<Key>)
    ensures var f := FilterEntries(GroupKeys(keys));
      (forall e :: e in f ==> e.1)
      && |f| == |set k | k in keys|
      && forall i :: 0 <= i < |keys| ==> (Label(keys[i]), true) in f
  {
    var groups := GroupKeys(keys);
    var f := FilterEntries(groups);
    GroupKeysCount(keys);
    forall i | 0 <= i < |keys| ensures (Label(keys[i]), true) in f {
      assert keys[i] in groups;
      var j :| 0 <= j < |groups| && groups[j] == keys[i];
      assert f[j] == (Label(keys[i]), true);
    }
  }

  /**
   * When neither of the first two columns of the file is one of the four moved ones, a load that
   * raises nothing leaves those two in front, then Statut, Commencé, Terminé and Note/20,00.
   */
  lemma LoadFixedPositions(env: Env, path: string, s: Session)
    requires Loaded(env, path, s).failure.None?
    requires path in env.files
    requires forall j :: 0 <= j < 2 && j < |env.files[path].columns| ==>
      env.files[path].columns[j].name !in Targets
    ensures var cols := Loaded(env, path, s).session.data.value.columns;
      |cols| >= 6
      && cols[0].name == env.files[path].columns[0].name
      && cols[1].name == env.files[path].columns[1].name
      && forall k :: 0 <= k < 4 ==> cols[2 + k].name == Targets[k]
  {
    LoadedIsPrepared(env, path, s);
    PreparedFixedPositions(env, env.files[path]);
  }

  /** A load that raises nothing leaves in `parent.data` the prepared table of the file. */
  lemma LoadedIsPrepared(env: Env, path: string, s: Session)
    requires Loaded(env, path, s).failure.None?
    ensures path in env.files && Prepared(env, env.files[path]).failure.None?
    ensures Loaded(env, path, s).session.data == Some(Prepared(env, env.files[path]).table)
  {
  }

  lemma PreparedFixedPositions(env: Env, raw: DataFrame)
    requires Prepared(env, raw).failure.None?
    requires forall j :: 0 <= j < 2 && j < |raw.columns| ==> raw.columns[j].name !in Targets
    ensures var cols := Prepared(env, raw).table.columns;
      |cols| >= 6 && cols[0].name == raw.columns[0].name && cols[1].name == raw.columns[1].name
      && forall k :: 0 <= k < 4 ==> cols[2 + k].name == Targets[k]
  {
    var t3 := Converted(env, raw).table;
    ConvertedShape(env, raw);
    ConvertColumnFound(env, raw);
    assert Prepared(env, raw).table.columns == ReorderFrom(t3.columns, 0).columns;
    ReorderNames(t3.columns);
    FixedNames(raw.columns, t3.columns);
  }

  /** The reorder of columns named like `raw`, position by position, holding every target. */
  lemma FixedNames(raw: seq<Column>, cols: seq<Column>)
    requires |cols| == |raw| && forall j :: 0 <= j < |raw| ==> cols[j].name == raw[j].name
    requires forall j :: 0 <= j < 2 && j < |raw| ==> raw[j].name !in Targets
    requires Status in ColumnNames(cols) && Started in ColumnNames(cols)
    requires Completed in ColumnNames(cols) && Note in ColumnNames(cols)
    ensures var r := ReorderFrom(cols, 0).columns;
      |r| >= 6 && r[0].name == raw[0].name && r[1].name == raw[1].name
      && forall k :: 0 <= k < 4 ==> r[2 + k].name == Targets[k]
  {
    assert forall k :: 0 <= k < 4 ==> Targets[k] in ColumnNames(cols);
    assert forall j :: 0 <= j < 2 && j < |cols| ==> cols[j].name !in Targets;
    ReorderFixedPositions(cols);
    var r := ReorderFrom(cols, 0).columns;
    assert r[0] == r[..2][0] && r[1] == r[..2][1];
    assert cols[0] == cols[..2][0] && cols[1] == cols[..2][1];
  }

  /** The three converted columns exist in a table the conversions went through. */
  lemma ConvertColumnFound(env: Env, raw: DataFrame)
    requires Converted(env, raw).failure.None?
    ensures Started in ColumnNames(raw.columns) && Completed in ColumnNames(raw.columns)
    ensures Note in ColumnNames(raw.columns)
  {
    var r1 := ConvertColumn(raw, Started, DateConv(env), DateParse(Started));
    ConvertColumnNames(raw, Started, DateConv(env), DateParse(Started));
    var r2 := ConvertColumn(r1.value, Completed, DateConv(env), DateParse(Completed));
    ConvertColumnNames(r1.value, Completed, DateConv(env), DateParse(Completed));
    ConvertColumnNames(r2.value, Note, ScoreConv(env), ScoreParse);
  }

  /** Every cell of the first column called `name` converts. */
  ghost predicate Converts(t: Table, name: string, conv: Cell -> Option<Cell>) {
    exists p :: FirstNamed(t.columns, name, p) && ConvertAll(t.columns[p].cells, conv).Some?
  }

  /** `conv` holds the scores read from the texts `raw`, each with its ',' made '.'. */
  ghost predicate ScoresOf(raw: seq<Cell>, conv: seq<Cell>, parse: string -> Option<int>) {
    |conv| == |raw|
    && forall i :: 0 <= i < |raw| ==>
         raw[i].Text? && parse(CommaToDot(raw[i].text)).Some?
         && conv[i] == Score(parse(CommaToDot(raw[i].text)).value)
  }

  /** `conv` holds the timestamps read from the texts `raw`; a timestamp already there is kept. */
  ghost predicate DatesOf(raw: seq<Cell>, conv: seq<Cell>, parse: string -> Option<int>) {
    |conv| == |raw|
    && forall i :: 0 <= i < |raw| ==>
         (raw[i].Text? && parse(raw[i].text).Some? && conv[i] == Time(parse(raw[i].text).value))
         || (raw[i].Time? && conv[i] == raw[i])
  }

  /**
   * A conversion of the column `name` leaves the first column called `other` where it was
   * found, unchanged.
   */
  lemma ConvertKeepsOther(t: DataFrame, name: string, conv: Cell -> Option<Cell>, failure: Error,
                          other: string, q: nat)
    requires ConvertColumn(t, name, conv, failure).Ok? && other != name
    requires FirstNamed(t.columns, other, q)
    ensures var r := ConvertColumn(t, name, conv, failure).value;
      FirstNamed(r.columns, other, q) && r.columns[q] == t.columns[q]
  {
  }

  /** A conversion of the column `name` leaves another column convertible exactly when it was. */
  lemma ConvertLeavesOther(t: DataFrame, name: string, conv: Cell -> Option<Cell>, failure: Error,
                           other: string, conv2: Cell -> Option<Cell>)
    requires ConvertColumn(t, name, conv, failure).Ok? && other != name
    ensures Converts(ConvertColumn(t, name, conv, failure).value, other, conv2) <==> Converts(t, other, conv2)
  {
    var r := ConvertColumn(t, name, conv, failure).value;
    if Converts(r, other, conv2) {
      var q :| FirstNamed(r.columns, other, q) && ConvertAll(r.columns[q].cells, conv2).Some?;
      assert FirstNamed(t.columns, other, q);
    }
    if Converts(t, other, conv2) {
      var q :| FirstNamed(t.columns, other, q) && ConvertAll(t.columns[q].cells, conv2).Some?;
      ConvertKeepsOther(t, name, conv, failure, other, q);
    }
  }

  /** The first column called `name`, converted, holds `conv` applied to each of its cells. */
  lemma ConvertColumnCells(t: DataFrame, name: string, conv: Cell -> Option<Cell>, failure: Error, p: nat)
    requires ConvertColumn(t, name, conv, failure).Ok? && FirstNamed(t.columns, name, p)
    ensures var c := ConvertColumn(t, name, conv, failure).value.columns[p];
      c.name == name && |c.cells| == |t.columns[p].cells|
      && forall i :: 0 <= i < |c.cells| ==> conv(t.columns[p].cells[i]) == Some(c.cells[i])
  {
  }

  /** The tables a clean run of the three conversions goes through. */
  lemma ConvertedChain(env: Env, raw: DataFrame) returns (t1: DataFrame, t2: DataFrame)
    requires Converted(env, raw).failure.None?
    ensures ConvertColumn(raw, Started, DateConv(env), DateParse(Started)) == Ok(t1)
    ensures ConvertColumn(t1, Completed, DateConv(env), DateParse(Completed)) == Ok(t2)
    ensures ConvertColumn(t2, Note, ScoreConv(env), ScoreParse) == Ok(Converted(env, raw).table)
  {
    t1 := ConvertColumn(raw, Started, DateConv(env), DateParse(Started)).value;
    t2 := ConvertColumn(t1, Completed, DateConv(env), DateParse(Completed)).value;
  }

  /** The three conversions succeed exactly when every cell of the three columns converts. */
  lemma ConvertedCases(env: Env, raw: DataFrame)
    ensures Converted(env, raw).failure.None? <==>
      Converts(raw, Started, DateConv(env)) && Converts(raw, Completed, DateConv(env))
      && Converts(raw, Note, ScoreConv(env))
  {
    var r1 := ConvertColumn(raw, Started, DateConv(env), DateParse(Started));
    if r1.Ok? {
      ConvertLeavesOther(raw, Started, DateConv(env), DateParse(Started), Completed, DateConv(env));
      ConvertLeavesOther(raw, Started, DateConv(env), DateParse(Started), Note, ScoreConv(env));
      var r2 := ConvertColumn(r1.value, Completed, DateConv(env), DateParse(Completed));
      if r2.Ok? {
        ConvertLeavesOther(r1.value, Completed, DateConv(env), DateParse(Completed), Note, ScoreConv(env));
      }
    }
  }

  /**
   * The conversions stop at the first column holding a cell that does not convert: `parent.data`
   * then keeps the table as it was before that column.
   */
  lemma ConvertedStops(env: Env, raw: DataFrame)
    ensures Started in ColumnNames(raw.columns) && !Converts(raw, Started, DateConv(env)) ==>
      Converted(env, raw) == Stage(raw, Some(DateParse(Started)))
    ensures Converts(raw, Started, DateConv(env)) && Completed in ColumnNames(raw.columns)
            && !Converts(raw, Completed, DateConv(env)) ==>
      Converted(env, raw).failure == Some(DateParse(Completed))
    ensures Converts(raw, Started, DateConv(env)) && Converts(raw, Completed, DateConv(env))
            && Note in ColumnNames(raw.columns) && !Converts(raw, Note, ScoreConv(env)) ==>
      Converted(env, raw).failure == Some(ScoreParse)
  {
    var r1 := ConvertColumn(raw, Started, DateConv(env), DateParse(Started));
    if r1.Ok? {
      ConvertLeavesOther(raw, Started, DateConv(env), DateParse(Started), Completed, DateConv(env));
      ConvertLeavesOther(raw, Started, DateConv(env), DateParse(Started), Note, ScoreConv(env));
      ConvertColumnNames(raw, Started, DateConv(env), DateParse(Started));
      var r2 := ConvertColumn(r1.value, Completed, DateConv(env), DateParse(Completed));
      if r2.Ok? {
        ConvertLeavesOther(r1.value, Completed, DateConv(env), DateParse(Completed), Note, ScoreConv(env));
        ConvertColumnNames(r1.value, Completed, DateConv(env), DateParse(Completed));
      }
    }
  }

  /**
   * After the three conversions, the first Note/20,00 column holds, on every row, the score the
   * parser reads from the file's text with ',' made '.'.
   */
  lemma ConvertedScores(env: Env, raw: DataFrame, p: nat)
    requires Converted(env, raw).failure.None? && FirstNamed(raw.columns, Note, p)
    ensures var c := Converted(env, raw).table.columns[p];
      c.name == Note && ScoresOf(raw.columns[p].cells, c.cells, env.parseScore)
  {
    var t1, t2 := ConvertedChain(env, raw);
    ConvertKeepsOther(raw, Started, DateConv(env), DateParse(Started), Note, p);
    ConvertKeepsOther(t1, Completed, DateConv(env), DateParse(Completed), Note, p);
    ConvertColumnCells(t2, Note, ScoreConv(env), ScoreParse, p);
  }

  /** After the conversions, the first Commencé column holds the timestamps read from the file. */
  lemma ConvertedStarts(env: Env, raw: DataFrame, p: nat)
    requires Converted(env, raw).failure.None? && FirstNamed(raw.columns, Started, p)
    ensures var c := Converted(env, raw).table.columns[p];
      c.name == Started && DatesOf(raw.columns[p].cells, c.cells, env.parseDate)
  {
    var t1, t2 := ConvertedChain(env, raw);
    ConvertColumnCells(raw, Started, DateConv(env), DateParse(Started), p);
    ConvertKeepsOther(t1, Completed, DateConv(env), DateParse(Completed), Started, p);
    ConvertKeepsOther(t2, Note, ScoreConv(env), ScoreParse, Started, p);
  }

  /** After the conversions, the first Terminé column holds the timestamps read from the file. */
  lemma ConvertedEnds(env: Env, raw: DataFrame, p: nat)
    requires Converted(env, raw).failure.None? && FirstNamed(raw.columns, Completed, p)
    ensures var c := Converted(env, raw).table.columns[p];
      c.name == Completed && DatesOf(raw.columns[p].cells, c.cells, env.parseDate)
  {
    var t1, t2 := ConvertedChain(env, raw);
    ConvertKeepsOther(raw, Started, DateConv(env), DateParse(Started), Completed, p);
    ConvertColumnCells(t1, Completed, DateConv(env), DateParse(Completed), p);
    ConvertKeepsOther(t2, Note, ScoreConv(env), ScoreParse, Completed, p);
  }

  /**
   * A load that raises nothing leaves in `parent.data` a Note/20,00 column holding, on every row,
   * the score read from the file's text with ',' made '.'.
   */
  lemma LoadedScores(env: Env, path: string, s: Session, p: nat)
    requires Loaded(env, path, s).failure.None?
    requires path in env.files && FirstNamed(env.files[path].columns, Note, p)
    ensures exists c :: c in Loaded(env, path, s).session.data.value.columns && c.name == Note
                        && ScoresOf(env.files[path].columns[p].cells, c.cells, env.parseScore)
  {
    var raw := env.files[path];
    LoadedIsPrepared(env, path, s);
    ConvertedScores(env, raw, p);
    var t3 := Converted(env, raw).table;
    ConvertedShape(env, raw);
    ReorderPermutes(t3.columns, 0);
    var c := t3.columns[p];
    assert c in multiset(t3.columns);
    assert c in Loaded(env, path, s).session.data.value.columns;
  }

  /**
   * A Commencé cell the date parser cannot read stops the load with `DateParse`, before any other
   * conversion: `parent.data` holds the file's table as read.
   */
  lemma LoadStopsOnBadStart(env: Env, path: string, s: Session, p: nat, i: nat)
    requires path in env.files && Missing(env.expected, env.files[path]) == {}
    requires FirstNamed(env.files[path].columns, Started, p) && i < |env.files[path].columns[p].cells|
    requires DateCell(env.parseDate, env.files[path].columns[p].cells[i]).None?
    ensures Loaded(env, path, s) ==
      Outcome(s.(data := Some(env.files[path])), Some(DateParse(Started)))
  {
    var raw := env.files[path];
    assert raw.columns[p] in raw.columns;
    assert !Converts(raw, Started, DateConv(env));
    ConvertedStops(env, raw);
  }

  /**
   * With every Commencé cell read, a Terminé cell the date parser cannot read stops the load with
   * `DateParse`.
   */
  lemma LoadStopsOnBadEnd(env: Env, path: string, s: Session, p: nat, i: nat)
    requires path in env.files && Missing(env.expected, env.files[path]) == {}
    requires Converts(env.files[path], Started, DateConv(env))
    requires FirstNamed(env.files[path].columns, Completed, p) && i < |env.files[path].columns[p].cells|
    requires DateCell(env.parseDate, env.files[path].columns[p].cells[i]).None?
    ensures Loaded(env, path, s).failure == Some(DateParse(Completed))
  {
    var raw := env.files[path];
    assert raw.columns[p] in raw.columns;
    assert !Converts(raw, Completed, DateConv(env));
    ConvertedStops(env, raw);
  }

  /**
   * With both date columns read, a Note/20,00 cell that is not a number once ',' is made '.'
   * stops the load with `ScoreParse`.
   */
  lemma LoadStopsOnBadScore(env: Env, path: string, s: Session, p: nat, i: nat)
    requires path in env.files && Missing(env.expected, env.files[path]) == {}
    requires Converts(env.files[path], Started, DateConv(env))
    requires Converts(env.files[path], Completed, DateConv(env))
    requires FirstNamed(env.files[path].columns, Note, p) && i < |env.files[path].columns[p].cells|
    requires ScoreCell(env.parseScore, env.files[path].columns[p].cells[i]).None?
    ensures Loaded(env, path, s).failure == Some(ScoreParse)
  {
    var raw := env.files[path];
    assert raw.columns[p] in raw.columns;
    assert !Converts(raw, Note, ScoreConv(env));
    ConvertedStops(env, raw);
  }

  /** `open_csv` by case: a cancelled dialog does nothing, a non-CSV name is refused untouched. */
  lemma OpenCases(env: Env, filename: string, s: Session)
    ensures filename == "" ==> Opened(env, filename, s) == Outcome(s, None)
    ensures filename != "" && !IsCsvName(filename) ==>
      Opened(env, filename, s) == Outcome(s, Some(UnsupportedFileType(filename)))
    ensures IsCsvName(filename) ==>
      Opened(env, filename, s).session.fileText == "File: " + filename
      && Opened(env, filename, s) == Loaded(env, filename, s.(fileText := "File: " + filename))
  {
    if IsCsvName(filename) {
      LoadCases(env, filename, s.(fileText := "File: " + filename));
    }
  }

  /**
   * As written, `open_csv` on an existing CSV file fails to find it whenever no file is called
   * like the label, and `parent.data` is left as it was.
   */
  lemma AsWrittenMissesFile(env: Env, filename: string, s: Session)
    requires IsCsvName(filename) && FileLabel(filename) !in env.files
    ensures OpenedAsWritten(env, filename, s) ==
      Outcome(s.(fileText := FileLabel(filename)), Some(FileNotFound(FileLabel(filename))))
  {
  }

  /** A file "a.csv": the call as written reports "File: a.csv" missing and keeps the old data. */
  lemma AsWrittenCounterexample(t: DataFrame, s: Session)
    ensures var env := Env(map["a.csv" := t], {}, x => None, x => None);
      OpenedAsWritten(env, "a.csv", s).failure == Some(FileNotFound("File: a.csv"))
      && OpenedAsWritten(env, "a.csv", s).session.data == s.data
  {
    var env := Env(map["a.csv" := t], {}, x => None, x => None);
    assert LowerAll(".csv") == ".csv";
    assert IsCsvName("a.csv");
    assert FileLabel("a.csv") == "File: a.csv";
    assert "File: a.csv" != "a.csv";
    AsWrittenMissesFile(env, "a.csv", s);
  }

  /** With the corrected call, a CSV file that exists is found and replaces `parent.data`. */
  lemma OpenedFound(env: Env, filename: string, s: Session)
    requires IsCsvName(filename) && filename in env.files
    ensures Opened(env, filename, s).session.data.Some?
    ensures Opened(env, filename, s).session.fileText == FileLabel(filename)
  {
    OpenCases(env, filename, s);
    LoadCases(env, filename, s.(fileText := FileLabel(filename)));
  }

  /** The same file with the corrected call: it is found and `parent.data` is replaced. */
  lemma CorrectedLoadsFile(t: DataFrame, s: Session)
    ensures var env := Env(map["a.csv" := t], {}, x => None, x => None);
      Opened(env, "a.csv", s).session.data.Some?
      && Opened(env, "a.csv", s).session.fileText == "File: a.csv"
  {
    var env := Env(map["a.csv" := t], {}, x => None, x => None);
    assert LowerAll(".csv") == ".csv";
    assert IsCsvName("a.csv");
    assert FileLabel("a.csv") == "File: a.csv";
    OpenedFound(env, "a.csv", s);
  }

  // ----------------------------------------------------------------------------------------------
  // The application state and the two entry points
  // ----------------------------------------------------------------------------------------------

  /** The parts of the main window the load pipeline touches. */
  class App {
    var data: Option<DataFrame>
    var inputFileText: string
    const studentFilter: CheckableComboBox

    constructor ()
      ensures data == None && inputFileText == "" && fresh(studentFilter) && studentFilter.entries == []
    {
      data := None;
      inputFileText := "";
      studentFilter := new CheckableComboBox();
    }

    function State(): Session
      reads this, studentFilter
    {
      Session(data, inputFileText, studentFilter.entries)
    }

    /** The body of `load_data` once the path is known. */
    method LoadFrom(env: Env, path: string) returns (failure: Option<Error>)
      modifies this, studentFilter
      ensures Outcome(State(), failure) == Loaded(env, path, old(State()))
    {
      if path !in env.files {
        return Some(FileNotFound(path));
      }
      var raw := env.files[path];
      data := Some(raw);
      var missing := Missing(env.expected, raw);
      if missing != {} {
        return Some(MissingColumns(missing));
      }
      failure := Prepare(env, raw);
      if failure.Some? {
        return;
      }
      failure := RebuildFilter(data.value);
    }

    /** The conversions and the reorder (lines 212-235), assigning `parent.data` after each. */
    method Prepare(env: Env, raw: DataFrame) returns (failure: Option<Error>)
      requires data == Some(raw)
      modifies this`data
      ensures data.Some? && Stage(data.value, failure) == Prepared(env, raw)
    {
      var r1 := ConvertColumn(raw, Started, DateConv(env), DateParse(Started));
      if r1.Err? {
        return Some(r1.error);
      }
      data := Some(r1.value);
      var r2 := ConvertColumn(r1.value, Completed, DateConv(env), DateParse(Completed));
      if r2.Err? {
        return Some(r2.error);
      }
      data := Some(r2.value);
      var r3 := ConvertColumn(r2.value, Note, ScoreConv(env), ScoreParse);
      if r3.Err? {
        return Some(r3.error);
      }
      data := Some(r3.value);
      var t3 := r3.value;
      var cols;
      cols, failure := ReorderColumns(t3.columns);
      ReorderSubset(t3.columns, 0);
      data := Some(Rebuilt(t3, cols));
    }

    /** Lines 243-248: clear the filter, then add one checked entry per student group. */
    method RebuildFilter(t: DataFrame) returns (failure: Option<Error>)
      modifies studentFilter
      ensures studentFilter.entries == (if StudentKeys(t).Ok? then FilterEntries(GroupKeys(StudentKeys(t).value)) else [])
      ensures failure == (if StudentKeys(t).Ok? then None else Some(StudentKeys(t).error))
    {
      studentFilter.Clear();
      var keys := StudentKeys(t);
      if keys.Err? {
        return Some(keys.error);
      }
      var groups := GroupKeys(keys.value);
      for i := 0 to |groups|
        invariant studentFilter.entries == FilterEntries(groups[..i])
      {
        studentFilter.AddCheckableItem(Label(groups[i]), true);
        assert groups[..i + 1][..i] == groups[..i];
      }
      assert groups[..|groups|] == groups;
      return None;
    }

    /** `load_data`: the path is read back from the file label. */
    method LoadData(env: Env) returns (failure: Option<Error>)
      modifies this, studentFilter
      ensures Outcome(State(), failure) == Loaded(env, old(inputFileText), old(State()))
    {
      failure := LoadFrom(env, inputFileText);
    }

    /** `open_csv` with the dialog's answer `filename`, loading the chosen file. */
    method OpenCsv(env: Env, filename: string) returns (failure: Option<Error>)
      modifies this, studentFilter
      ensures Outcome(State(), failure) == Opened(env, filename, old(State()))
    {
      if filename == "" {
        return None;
      }
      if !IsCsvName(filename) {
        return Some(UnsupportedFileType(filename));
      }
      inputFileText := FileLabel(filename);
      failure := LoadFrom(env, filename);
    }

    /** `open_csv` as written: sets the label, then `load_data` reads the label as the path. */
    method OpenCsvAsWritten(env: Env, filename: string) returns (failure: Option<Error>)
      modifies this, studentFilter
      ensures Outcome(State(), failure) == OpenedAsWritten(env, filename, old(State()))
    {
      if filename == "" {
        return None;
      }
      if !IsCsvName(filename) {
        return Some(UnsupportedFileType(filename));
      }
      inputFileText := FileLabel(filename);
      failure := LoadData(env);
    }
  }
}
