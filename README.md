# UL-Arche-Analyser core in Dafny

UL-Arche-Analyser is a desktop tool for teachers. It reads a CSV export of student activity
(last name, first name, status, start and completion times, score out of 20). The teacher
picks students in a checkable drop-down and edits named class schedules, each a list of
(start, end) intervals. For every selected student the tool then shows the best score and
the list of scores of the completed activities that lie inside the schedule's intervals.

This project models the three parts of the program that hold that logic and proves what they
guarantee:

- `CsvFileManager` (lib/csv_file_manager.py). `open_csv` and `load_data`:
  - the file-name check and the file label;
  - the missing-column check;
  - the date and score conversions;
  - the pop/insert loop that moves four columns to fixed places;
  - the rebuild of the student filter.
  The pipeline is written twice. `Prepared`, `Loaded` and `Opened` are functions of their
  inputs. The class `App` has the fields `parent.data`, the file label and the filter, and its
  methods change them step by step, each proved equal to the functions.
- `WidgetQuery` (frame/widget_query.py). Two classes:
  - `TwoColumnWidget`, the class-schedule editor. Its fields are the ordered `class_info`
    dictionary, the drop-down entries and current index, the two-column table and the save file.
  - `CheckableComboBox`, the student filter.
- `WidgetResult` (frame/widget_result.py). `compute`:
  - `ComputeSpec` states the result as a function of its inputs;
  - the method `Compute`, with its group loop, interval loop and `cpt` counter, is proved
    equal to it.

The shared modules:

- `Frame`: cells, columns, the table, the exceptions, student keys, `groupby` order and typed
  activity rows.
- `PyDict`: an insertion-ordered Python dictionary.
- `Seqs`: order-preserving filtering.
- `Wrappers`: `Option` and `Result`.

Modelling choices:

- A table is a sequence of named columns of equal height.
- A cell is text, a timestamp (an integer) or a score. Scores are integer hundredths.
- `groupby(['Nom de famille', 'Prénom'])` visits the distinct (last, first) pairs in sorted
  order. The order is lexicographic on code points, the order of Python's `str` comparison.
  `Frame.GroupKeys` builds this order by insertion.
- An exception is an `Error` value. Both entry points are wrapped by the `supervisor`
  decorator, which reports the exception in a dialog and returns. So a failed call keeps every
  change made before the line that raised, and the model keeps those changes too.
- Outside inputs are parameters:
  - the file dialog's answer;
  - the CSV files `read_csv` can open, as a map from path to table;
  - `EXPECTED_COLUMNS` (lib/parameters.py is not part of this model);
  - `to_datetime` with the French format, and `float`, each as a partial parser;
  - the JSON save file, as an optional dictionary;
  - the bound comparison, as a function from text to `At(t)`, `NaT` or `Unparseable`.
- In the text of lib/csv_file_manager.py the names "Commencé", "Terminé" and "Prénom" appear in
  another character encoding. The model assumes both files name the same columns, spelled as in
  frame/widget_result.py.

Three behaviours of the code a reader may not expect, each modelled as the code has it:

- A schedule bound that cannot be read as a time makes the pandas comparison raise. So
  `compute` fails; it does not skip the interval (`WidgetResult.ComputeRefusesUnparseable`).
- A load that fails part-way keeps the last table assigned to `parent.data`. It is not
  all-or-nothing (`CsvFileManager.Loaded`).
- `class_add` with an existing name silently resets that class to an empty schedule and adds
  a second drop-down entry.

## Model

| member | source | states |
|---|---|---|
| Frame.Find | lib/csv_file_manager.py:214 | the first column with a name, and absent exactly when no column has it |
| Frame.FindAt | lib/csv_file_manager.py:214 | a column with no column of the same name before it is the one a lookup finds |
| Frame.Cells | lib/csv_file_manager.py:214-219 | the cells of the first column with that name, one per row, and a KeyError exactly when no column has it |
| Frame.GroupKeys | frame/widget_result.py:105 | the group order is sorted and holds exactly the keys of the rows |
| Frame.GroupKeysCount | lib/csv_file_manager.py:247-248 | there are as many groups as distinct (last name, first name) pairs |
| Frame.StrLessTotal | frame/widget_result.py:105 | any two different names are ordered one way or the other |
| Frame.StrLessTransitive | frame/widget_result.py:105 | the name order is transitive |
| Frame.StrLessIrreflexive | frame/widget_result.py:105 | no name sorts before itself |
| Frame.Label | frame/widget_result.py:114 | the text "last first" under which a student is listed in the filter and matched against the checked items (also lib/csv_file_manager.py:248) |
| Frame.KeysOf | lib/csv_file_manager.py:247-248 | row i's key is built from the row's two name cells, and exists exactly when both are text |
| Frame.StudentKeys | lib/csv_file_manager.py:247 | one student key per row of the table |
| Frame.RecordsFrom | frame/widget_result.py:111-131 | the typed row i is what the table's cells at row i read as |
| Frame.Records | frame/widget_result.py:111-131 | one typed activity per row of the table |
| Frame.SourcesKeys | frame/widget_result.py:105-117 | rows that read as activities read as keys, with the same student on each row |
| Frame.RecordsAgreeWithKeys | frame/widget_result.py:105-117 | the filter and the computation see the same student on every row |
| PyDict.Set | frame/widget_query.py:205 | assignment keeps the key order, and appends a key only when it is new |
| PyDict.KeyIndex | frame/widget_query.py:224 | the position of a key is the first entry that holds it |
| PyDict.Get | frame/widget_query.py:297-300 | a lookup finds a value exactly when the name is a key |
| PyDict.PopAt | frame/widget_query.py:224 | `pop` keeps the entries before the key and shifts those after it down by one |
| PyDict.Pop | frame/widget_query.py:224 | `pop` removes exactly one entry |
| PyDict.GetSet | frame/widget_query.py:237 | after `d[k] = v`, `d[k]` is v and every other key reads as before |
| PyDict.SetDistinct | frame/widget_query.py:237 | assignment keeps the keys distinct |
| PyDict.GetPopRemoved | frame/widget_query.py:224 | after `pop(k)`, k is no longer a key |
| PyDict.GetPopKept | frame/widget_query.py:224 | after `pop(k)`, every other key reads as before |
| PyDict.PopDistinct | frame/widget_query.py:224 | `pop` keeps the keys distinct |
| WidgetQuery.ReadBack | frame/widget_query.py:253-275 | `get_data` returns one pair per table row |
| WidgetQuery.ReadBackAt | frame/widget_query.py:263-269 | row i reads as its two cell texts, with "" for a cell without an item |
| WidgetQuery.Filled | frame/widget_query.py:303-318 | `load_data` writes one table row per interval |
| WidgetQuery.ReadBackFilled | frame/widget_query.py:292-318 | loading a schedule into the table and reading it back gives the schedule |
| WidgetQuery.TableFor | frame/widget_query.py:297-322 | the table `load_data` leaves: one row per interval of the class, no rows for an unknown class |
| WidgetQuery.Persisted | frame/widget_query.py:237-251 | what the save file holds after `class_save`: reopening it yields no classes exactly when the dictionary was empty or `{'': []}` |
| WidgetQuery.IsPlaceholder | frame/widget_query.py:240 | the dictionary `{'': []}`, which `class_save` does not write |
| WidgetQuery.LoadReadBack | frame/widget_query.py:292-328 | after `load_data`, `get_data` returns the class's schedule, or nothing for an unknown class |
| WidgetQuery.FirstIndex | frame/widget_query.py:211 | `setCurrentText` selects the first entry with that text |
| WidgetQuery.IndexAfterRemoval | frame/widget_query.py:227 | after `removeItem` of the current entry, the index stays in range and is -1 exactly when the list becomes empty |
| WidgetQuery.IndexAfterRemovalSelects | frame/widget_query.py:227 | with more than one entry, the new current entry is the one that followed the removed one, or the one before it when the last was removed |
| WidgetQuery.RemoveAt | frame/widget_query.py:227 | `removeItem` drops exactly the entry at the index and keeps the order of the others |
| WidgetQuery.TwoColumnWidget.constructor | frame/widget_query.py:69-95 | reads the save file when it exists; the drop-down lists its keys and the first class is loaded |
| WidgetQuery.TwoColumnWidget.LoadData | frame/widget_query.py:292-328 | the table becomes the current class's schedule, or no rows for an unknown class |
| WidgetQuery.TwoColumnWidget.GetData | frame/widget_query.py:253-275 | returns the table read back row by row |
| WidgetQuery.TwoColumnWidget.AddRow | frame/widget_query.py:184-192 | appends one empty row, which reads back as ("", "") |
| WidgetQuery.TwoColumnWidget.RemoveSelectedRow | frame/widget_query.py:330-341 | removes the selected row, or nothing when no row is selected |
| WidgetQuery.TwoColumnWidget.EditCell | frame/widget_query.py:143 | a user edit changes one cell and nothing else |
| WidgetQuery.TwoColumnWidget.ClassAdd | frame/widget_query.py:194-214 | a confirmed, non-empty name maps to an empty schedule, is appended and selected, and the table is empty; otherwise nothing changes |
| WidgetQuery.TwoColumnWidget.ClassSave | frame/widget_query.py:232-251 | the table is stored under the current name; the file holds the dictionary, or is deleted for the `{'': []}` placeholder |
| WidgetQuery.TwoColumnWidget.ClassRemove | frame/widget_query.py:216-230 | the current class leaves the dictionary and the drop-down, the next entry is loaded and saved; a name that is not a key raises and changes nothing |
| WidgetQuery.ClassAddSchedules | frame/widget_query.py:205 | the new class reads an empty schedule and the other classes are untouched |
| WidgetQuery.ClassRemoveForgets | frame/widget_query.py:224 | the removed class reads no schedule and the other classes are untouched |
| WidgetQuery.SaveReopen | frame/widget_query.py:79-95 | `class_save` then a new widget on the save file: it holds the saved classes with their names in the drop-down in the same order, or nothing when `{'': []}` was saved |
| WidgetQuery.Toggled | frame/widget_query.py:410-423 | a press flips the check state of the pressed entry and leaves every other entry as it was |
| WidgetQuery.ToggledTwice | frame/widget_query.py:410-423 | two presses on the same entry change nothing |
| WidgetQuery.CheckedTexts | frame/widget_query.py:425-445 | the texts of the checked entries in entry order, never more texts than entries |
| WidgetQuery.CheckedTextsMembers | frame/widget_query.py:425-445 | a text is reported exactly when some checked entry carries it |
| WidgetQuery.CheckedTextsAllChecked | frame/widget_query.py:425-445 | with every entry checked, all texts are reported in entry order |
| WidgetQuery.CheckableComboBox.constructor | frame/widget_query.py:378-389 | a new filter has no entries |
| WidgetQuery.CheckableComboBox.AddCheckableItem | frame/widget_query.py:391-408 | appends one entry with its text and check state |
| WidgetQuery.CheckableComboBox.HandleItemPressed | frame/widget_query.py:410-423 | flips the check state of the pressed entry |
| WidgetQuery.CheckableComboBox.CheckedItems | frame/widget_query.py:425-445 | returns the texts of the checked entries in entry order |
| WidgetQuery.CheckableComboBox.Clear | lib/csv_file_manager.py:244 | `clear` leaves no entries |
| CsvFileManager.LowerAll | lib/csv_file_manager.py:182 | lower-casing keeps the length and maps each character |
| CsvFileManager.IsCsvName | lib/csv_file_manager.py:182 | `filename.lower().endswith('.csv')` (its meaning is stated by `CsvSuffix`) |
| CsvFileManager.CsvSuffix | lib/csv_file_manager.py:182 | a name is accepted exactly when its last four characters lower-case to ".csv" |
| CsvFileManager.CsvExtensions | lib/csv_file_manager.py:182 | names ending in ".csv" and in ".CSV" are both accepted |
| CsvFileManager.Missing | lib/csv_file_manager.py:204-210 | the missing set is exactly the expected names that no column has |
| CsvFileManager.CommaToDot | lib/csv_file_manager.py:219 | same length, each ',' becomes '.', and no ',' is left |
| CsvFileManager.DateCell | lib/csv_file_manager.py:214-216 | a text cell converts exactly when the French date parser reads it, and becomes the timestamp read; a timestamp is kept; a score cell is refused |
| CsvFileManager.ScoreCell | lib/csv_file_manager.py:219 | a cell becomes a score exactly when it is text and the parser reads it with every ',' made '.', and the score is what the parser read |
| CsvFileManager.ConvertAll | lib/csv_file_manager.py:214-219 | each cell is converted, and the column fails exactly when some cell fails |
| CsvFileManager.ConvertColumn | lib/csv_file_manager.py:214-219 | it succeeds exactly when the first column with that name exists and every one of its cells converts, and then that column is replaced where it stands by the converted cells; rows, names and the other columns are kept; a KeyError when the column is absent, else the conversion error |
| CsvFileManager.ReorderColumns | lib/csv_file_manager.py:223-235 | the pop/insert loop gives the columns and the exception of the reorder |
| CsvFileManager.Step | lib/csv_file_manager.py:232-235 | one pop/insert: a KeyError exactly when the column is absent, success exactly when it is present and the index is within the columns, and then the column sits at the index with the column count kept |
| CsvFileManager.ReorderFrom | lib/csv_file_manager.py:229-235 | the loop from step i on: a completed run keeps the column count, and any exception is the KeyError or insert error of one of the remaining steps |
| CsvFileManager.StepPermutes | lib/csv_file_manager.py:232-235 | a successful pop/insert is a permutation |
| CsvFileManager.StepAt | lib/csv_file_manager.py:232-235 | a column found at or after the insert index lands there, and the prefix is kept |
| CsvFileManager.StepKeepsOthers | lib/csv_file_manager.py:232-235 | a pop/insert keeps the other columns in their order |
| CsvFileManager.StepSubset | lib/csv_file_manager.py:232-235 | a pop/insert, even one that raises, yields only columns of its input |
| CsvFileManager.ReorderSubset | lib/csv_file_manager.py:229-235 | whatever happens, the reorder yields only columns of the table |
| CsvFileManager.ReorderPermutes | lib/csv_file_manager.py:229-235 | a completed reorder is a permutation that keeps the unmoved columns in order |
| CsvFileManager.TargetsDistinct | lib/csv_file_manager.py:223-226 | the four moved names differ and go to indexes 2 to 5 |
| CsvFileManager.FixedFrom | lib/csv_file_manager.py:229-235 | with the front columns not moved, each remaining step puts its column at its index |
| CsvFileManager.PlacedStep | lib/csv_file_manager.py:232-235 | on columns with the first targets already placed, the next pop/insert succeeds and places one more |
| CsvFileManager.FixedNames | lib/csv_file_manager.py:223-235 | columns named like the file, with every target present and none in front, get the four targets at indexes 2 to 5 |
| CsvFileManager.ReorderFixedPositions | lib/csv_file_manager.py:223-235 | with no moved column in the first two places, the two stay in front and then come Statut, Commencé, Terminé, Note/20,00 |
| CsvFileManager.ReorderStartedFirst | lib/csv_file_manager.py:223-235 | columns Commencé, x, Statut, y, Terminé, Note/20,00 reorder without error, with Statut at index 1 |
| CsvFileManager.ReorderTargetFirst | lib/csv_file_manager.py:223-235 | for the columns Commencé, a, Statut, b, Terminé, Note/20,00 the reorder succeeds with Statut at index 1: the front condition of `ReorderFixedPositions` cannot be dropped (not every layout with a moved column in front loses the fixed positions) |
| CsvFileManager.ExampleStatus | lib/csv_file_manager.py:232-235 | helper of `ReorderStartedFirst`: the Statut step of that example leaves the columns as they are |
| CsvFileManager.ExampleStarted | lib/csv_file_manager.py:232-235 | helper of `ReorderStartedFirst`: the Commencé step of that example moves it from the front to index 3 |
| CsvFileManager.ExampleRest | lib/csv_file_manager.py:232-235 | helper of `ReorderStartedFirst`: the last two steps of that example change nothing |
| CsvFileManager.ExampleCompleted | lib/csv_file_manager.py:232-235 | helper of `ReorderStartedFirst`: the Terminé step of that example changes nothing |
| CsvFileManager.ExampleNote | lib/csv_file_manager.py:232-235 | helper of `ReorderStartedFirst`: the Note/20,00 step of that example changes nothing |
| CsvFileManager.FilterEntries | lib/csv_file_manager.py:247-248 | one checked "last first" entry per group, in group order |
| CsvFileManager.Converted | lib/csv_file_manager.py:212-219 | the last table assigned by the three conversions keeps the row count, and a failure is a missing column or a cell that does not parse; which failure, and the converted cells, are stated by `ConvertedCases`, `ConvertedStops`, `ConvertedStarts`, `ConvertedEnds` and `ConvertedScores` |
| CsvFileManager.Prepared | lib/csv_file_manager.py:212-235 | the last table assigned by the conversions and the reorder keeps the row count |
| CsvFileManager.Loaded | lib/csv_file_manager.py:192-248 | `load_data` on a path: the file label is untouched, `parent.data` changes only when the file exists, and a clean load leaves a table and an all-checked filter |
| CsvFileManager.Opened | lib/csv_file_manager.py:160-189 | `open_csv` with the chosen path: `parent.data` changes only for an existing file with a CSV name, and the label only to "File: name" |
| CsvFileManager.OpenedAsWritten | lib/csv_file_manager.py:160-200 | `open_csv` as written: `parent.data` changes only when a file is called like the label "File: name" |
| CsvFileManager.SameNames | lib/csv_file_manager.py:214-219 | columns named alike position by position have the same name set |
| CsvFileManager.ConvertColumnNames | lib/csv_file_manager.py:214-219 | a conversion keeps the rows and every name where it stands |
| CsvFileManager.ConvertedShape | lib/csv_file_manager.py:212-219 | the three conversions keep the rows and every name where it stands |
| CsvFileManager.ConvertColumnFound | lib/csv_file_manager.py:214-219 | successful conversions mean the three converted columns exist |
| CsvFileManager.ConvertKeepsOther | lib/csv_file_manager.py:214-219 | converting one column leaves the first column of any other name at its place, unchanged |
| CsvFileManager.ConvertLeavesOther | lib/csv_file_manager.py:214-219 | converting one column leaves any other column convertible exactly when it was |
| CsvFileManager.ConvertColumnCells | lib/csv_file_manager.py:214-219 | the converted column holds, cell by cell, what the conversion makes of the original cells |
| CsvFileManager.ConvertedCases | lib/csv_file_manager.py:212-219 | the three conversions raise nothing exactly when every cell of Commencé, Terminé and Note/20,00 converts |
| CsvFileManager.ConvertedStops | lib/csv_file_manager.py:212-219 | an unreadable Commencé cell stops the conversions with `DateParse` before any column changes; with Commencé read, an unreadable Terminé cell stops them with `DateParse`; with both read, an unreadable Note/20,00 cell stops them with `ScoreParse` |
| CsvFileManager.ConvertedScores | lib/csv_file_manager.py:219 | after clean conversions, each Note/20,00 cell is the score read from the file's text with ',' made '.' |
| CsvFileManager.ConvertedStarts | lib/csv_file_manager.py:214 | after clean conversions, each Commencé cell is the timestamp read from the file's text |
| CsvFileManager.ConvertedEnds | lib/csv_file_manager.py:216 | after clean conversions, each Terminé cell is the timestamp read from the file's text |
| CsvFileManager.LoadedScores | lib/csv_file_manager.py:200-235 | a clean load leaves in `parent.data` a Note/20,00 column holding, row by row, the scores read from the file with ',' made '.' |
| CsvFileManager.LoadStopsOnBadStart | lib/csv_file_manager.py:212-214 | a Commencé cell the date parser cannot read makes the load raise `DateParse` with `parent.data` holding the file's table as read |
| CsvFileManager.LoadStopsOnBadEnd | lib/csv_file_manager.py:212-216 | with Commencé read, a Terminé cell the date parser cannot read makes the load raise `DateParse` |
| CsvFileManager.LoadStopsOnBadScore | lib/csv_file_manager.py:212-219 | with both dates read, a Note/20,00 cell that is not a number once ',' is made '.' makes the load raise `ScoreParse` |
| CsvFileManager.ReorderNames | lib/csv_file_manager.py:229-235 | a completed reorder keeps the name set, and Statut was present |
| CsvFileManager.PreparedShape | lib/csv_file_manager.py:212-235 | the conversions and the reorder keep the rows and the column names |
| CsvFileManager.PreparedFixedPositions | lib/csv_file_manager.py:212-235 | the conversions keep the front two names, so the reorder puts the four columns at indexes 2 to 5 |
| CsvFileManager.LoadCases | lib/csv_file_manager.py:200-210 | a missing file changes nothing; otherwise `parent.data` is replaced before any check; a missing column stops with exactly the missing names and the table unconverted; the label is never touched |
| CsvFileManager.LoadedIsPrepared | lib/csv_file_manager.py:200-235 | a clean load leaves the converted, reordered table in `parent.data` |
| CsvFileManager.FilterOfKeys | lib/csv_file_manager.py:247-248 | the rebuilt filter has every entry checked, one entry per distinct student, and every row's student |
| CsvFileManager.LoadSucceeds | lib/csv_file_manager.py:200-248 | a clean load keeps the rows and column names, and the filter has one checked entry per distinct student, each row's student included |
| CsvFileManager.LoadFixedPositions | lib/csv_file_manager.py:223-235 | a clean load with no moved column in front leaves Statut, Commencé, Terminé, Note/20,00 at indexes 2 to 5 |
| CsvFileManager.FileLabel | lib/csv_file_manager.py:186 | the label text "File: " followed by the chosen name |
| CsvFileManager.OpenCases | lib/csv_file_manager.py:177-189 | a cancelled dialog does nothing; a non-CSV name raises and changes nothing; a CSV name sets the label "File: name" and loads |
| CsvFileManager.AsWrittenMissesFile | lib/csv_file_manager.py:186-200 | as written, the label text is used as the path, so loading fails and `parent.data` is kept |
| CsvFileManager.AsWrittenCounterexample | lib/csv_file_manager.py:186-200 | with one file "a.csv", the code as written reports "File: a.csv" not found |
| CsvFileManager.OpenedFound | lib/csv_file_manager.py:177-200 | with the corrected path, a CSV file that exists is found: `parent.data` is replaced and the label set |
| CsvFileManager.CorrectedLoadsFile | lib/csv_file_manager.py:186-200 | with the same file, the corrected call finds it and replaces `parent.data` |
| CsvFileManager.App.constructor | frame/widget_query.py:487 | the window starts with no table (`compute` checks for one at frame/widget_result.py:90), an empty file label and the new, empty student filter; the main window's own file is not part of this model |
| CsvFileManager.App.LoadFrom | lib/csv_file_manager.py:200-248 | the step-by-step load leaves the state and exception that `Loaded` gives |
| CsvFileManager.App.Prepare | lib/csv_file_manager.py:212-235 | assigning `parent.data` after each conversion and after the reorder leaves the table `Prepared` gives |
| CsvFileManager.App.RebuildFilter | lib/csv_file_manager.py:243-248 | the filter is cleared, then gets one checked entry per group in group order |
| CsvFileManager.App.LoadData | lib/csv_file_manager.py:192-248 | `load_data` reads the path from the file label |
| CsvFileManager.App.OpenCsv | lib/csv_file_manager.py:160-189 | `open_csv` with the corrected path gives the state `Opened` gives |
| CsvFileManager.App.OpenCsvAsWritten | lib/csv_file_manager.py:160-200 | `open_csv` as written gives the state `OpenedAsWritten` gives |
| WidgetResult.InWindow | frame/widget_result.py:130-131 | a row lies in an interval when both bounds are times, it started at or after the start and completed at or before the end; a NaT bound matches nothing |
| WidgetResult.Selected | frame/widget_result.py:114-117 | a group is shown when its "last first" text is among the checked filter texts |
| WidgetResult.Window | frame/widget_result.py:129-131 | one interval's rows: it raises exactly when a bound cannot be read as a time, and otherwise holds exactly the rows started at or after the start and completed at or before the end |
| WidgetResult.Matched | frame/widget_result.py:125-131 | the `concat` over the intervals in order: a failure names a bound of the schedule, and every matched row is a row of the group |
| WidgetResult.StudentRow | frame/widget_result.py:119-151 | one student's grid line; it raises exactly when some bound of the schedule cannot be read as a time |
| WidgetResult.RowsFrom | frame/widget_result.py:110-154 | the group loop from group i on, with the counter at cpt: at most one line per remaining group |
| WidgetResult.ComputeSpec | frame/widget_result.py:77-154 | `compute` as a function: a success means a table is loaded with every expected column and typed rows, and gives at most one line per group |
| WidgetResult.Max | frame/widget_result.py:140 | the maximum is one of the scores and no score exceeds it |
| WidgetResult.Best | frame/widget_result.py:140 | the MAX. cell is the largest score when it is above 0, and empty exactly when no score is above 0 (no rows included) |
| WidgetResult.Compute | frame/widget_result.py:77-160 | the method returns what `ComputeSpec` gives |
| WidgetResult.StudentRows | frame/widget_result.py:107-154 | the group loop with its `cpt` counter returns the lines `RowsFrom` gives |
| WidgetResult.MatchRows | frame/widget_result.py:125-131 | the interval loop returns the `concat` that `Matched` gives |
| WidgetResult.MatchedErrExtends | frame/widget_result.py:129-131 | once an interval raises, the whole loop raises the same exception |
| WidgetResult.ComputeRefusals | frame/widget_result.py:89-102 | no table raises "no data"; an absent expected column raises with exactly the missing names |
| WidgetResult.MatchedMembers | frame/widget_result.py:120-131 | a row is matched exactly when it is a completed row of the student inside some interval |
| WidgetResult.MatchedOk | frame/widget_result.py:129-131 | the interval loop raises exactly when some bound cannot be read as a time |
| WidgetResult.MatchedLast | frame/widget_result.py:125-131 | the loop fails exactly when the earlier intervals or the last one fail; otherwise it appends the last window |
| WidgetResult.MatchedConcat | frame/widget_result.py:125-131 | the windows of two schedules in a row are concatenated: duplicates are kept and row counts add up |
| WidgetResult.SingleInterval | frame/widget_result.py:130-131 | one interval keeps each row inside it once, in row order |
| WidgetResult.ScoresMembers | frame/widget_result.py:146-148 | a note is listed exactly when some matched row carries that score |
| WidgetResult.CompletedMembers | frame/widget_result.py:111-120 | the rows read for a student are exactly its activities with status Terminée |
| WidgetResult.StudentRowHead | frame/widget_result.py:133-151 | a line sits on the grid row and under the name it was computed for |
| WidgetResult.StudentRowFacts | frame/widget_result.py:119-151 | a line's notes are the scores of the student's completed activities inside some interval; its MAX. is their maximum when it is above 0 |
| WidgetResult.RowsFromCons | frame/widget_result.py:110-154 | an unselected group adds no line and keeps the row counter; a selected one adds its line and moves the counter on by one |
| WidgetResult.LinesCons | frame/widget_result.py:110-154 | putting a student's line on row `cpt` before lines that start at `cpt + 1` keeps each line on its own row |
| WidgetResult.RowsFromSelected | frame/widget_result.py:110-154 | from any group on, there is one line per selected group, in group order, on consecutive grid rows |
| WidgetResult.RowsFromStart | frame/widget_result.py:107-154 | from the first group, the lines are on grid rows 1, 2, ... |
| WidgetResult.ComputeIsRows | frame/widget_result.py:89-111 | a successful computation is the group loop over the table's typed rows |
| WidgetResult.ComputeRows | frame/widget_result.py:104-154 | a successful computation has one line per checked student, in group order, on grid rows 1, 2, ... |
| WidgetResult.SelectedMembers | frame/widget_result.py:111-117 | a group is selected exactly when its name is checked and some row has that student |
| WidgetResult.SelectedIsStudent | frame/widget_result.py:111-117 | a selected group is a checked name of some row's student |
| WidgetResult.StudentIsSelected | frame/widget_result.py:111-117 | the student of a row whose name is checked is a selected group |
| WidgetResult.ComputeNames | frame/widget_result.py:111-117 | a name gets a line exactly when it is checked and some row's student has that name |
| WidgetResult.ComputeRefusesUnparseable | frame/widget_result.py:129-131 | with a checked student, a bound that cannot be read as a time makes `compute` raise |

## Left out

- PandasModel, the table preview (lib/csv_file_manager.py:237-241), the tool bar, the
  result dialog and its grid widgets: Qt rendering. The grid row of each line is kept as
  `gridRow`.
- The `supervisor` message box: a raised exception becomes the `Error` a call returns.
- `is_datetime` and `validate_cell`: they only colour cells and set tooltips. Interval text is
  stored unchecked either way.
- File I/O and JSON: the save file is an optional dictionary; the CSV files are a map from path
  to an already-read table.
- `read_csv` details (quoting, type inference, renaming of duplicate headers): the model takes
  the table it returns, and finds a column by its first occurrence.
- The French date format and `float` parsing: both are parameters. A score is kept in integer
  hundredths, and the `:.2f` formatting of scores is not modelled.
- NaN cells and `groupby`'s dropping of NaN keys, including NaN scores.
- Frame.Records, Frame.StudentKeys, CsvFileManager.Loaded: a name column that is not text, or a
  date or score column that holds text (e.g. after a load that stopped part-way), is a `CellType`
  error, also when `Loaded` rebuilds the filter through `StudentKeys`. pandas would instead group
  such values, or compare text with text.
- WidgetResult.ComputeSpec: reads the whole table into typed rows before grouping, so a badly
  typed row of an unselected student also stops the computation.
- A `compute` that raises has already added grid widgets for the students before the failing
  one. The model returns only the exception.
- The PyQt fatal error for an exception escaping a Qt slot: `class_remove` on a name that is not
  a key is modelled as a raise that changes nothing.
- The Qt signal wiring (`currentTextChanged` triggering `load_data`) is modelled as an explicit
  `LoadData` call whenever a method changes the current text.
- Concurrency and the order of Qt events: not modelled.

## Findings

| source | as written | input that shows it | evidently intended | confidence | as-written member | corrected member |
|---|---|---|---|---|---|---|
| lib/csv_file_manager.py:186-200 | `open_csv` sets the label to "File: " + name; `load_data` then passes the label text to `read_csv` as the path | choosing the file "a.csv", when no file is called "File: a.csv" | read the chosen path, without the "File: " prefix | medium (not executed) | CsvFileManager.AsWrittenCounterexample | CsvFileManager.CorrectedLoadsFile |
