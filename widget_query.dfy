/**
 * The two stateful widgets of frame/widget_query.py with the Qt rendering stripped away:
 * the class-schedule editor (TwoColumnWidget) and the student filter (CheckableComboBox).
 */
module WidgetQuery {
  import opened Wrappers
  import opened PyDict

  /** One schedule interval as typed by the user: (start text, end text). */
  type Interval = (string, string)

  type Schedule = seq<Interval>

  /** `class_info`: class name to schedule, in insertion order. */
  type ClassInfo = Dict<Schedule>

  /** One row of the two-column table; a cell nobody filled in holds no item. */
  datatype Row = Row(start: Option<string>, end: Option<string>)

  /** What `get_data` reads from a table: "" for a cell without an item. */
  function ReadBack(rows: seq<Row>): (s: Schedule)
    ensures |s| == |rows|
  {
    if rows == [] then []
    else
      var n := |rows| - 1;
      ReadBack(rows[..n]) + [(rows[n].start.GetOr(""), rows[n].end.GetOr(""))]
  }

  lemma {:induction false} ReadBackAt(rows: seq<Row>, i: nat)
    requires i < |rows|
    ensures ReadBack(rows)[i] == (rows[i].start.GetOr(""), rows[i].end.GetOr(""))
  {
    var n := |rows| - 1;
    if i < n {
      ReadBackAt(rows[..n], i);
    }
  }

  /** The rows `load_data` writes for a schedule: both cells of every row filled in. */
  function Filled(s: Schedule): (rows: seq<Row>)
    ensures |rows| == |s|
  {
    if s == [] then []
    else
      var n := |s| - 1;
      Filled(s[..n]) + [Row(Some(s[n].0), Some(s[n].1))]
  }

  /** Loading a schedule into the table and reading it back gives the schedule. */
  lemma {:induction false} ReadBackFilled(s: Schedule)
    ensures ReadBack(Filled(s)) == s
  {
    if s != [] {
      var n := |s| - 1;
      ReadBackFilled(s[..n]);
      assert Filled(s)[..n] == Filled(s[..n]);
      assert s == s[..n] + [s[n]];
    }
  }

  /** The table `load_data` leaves for class `name`: its schedule, or no rows at all. */
  function TableFor(d: ClassInfo, name: string): (t: seq<Row>)
    ensures |t| == |Get(d, name).GetOr([])|
  {
    match Get(d, name)
    case Some(s) => Filled(s)
    case None => []
  }

  /** After `load_data`, `get_data` gives the class's schedule, or nothing for an unknown class. */
  lemma LoadReadBack(d: ClassInfo, name: string)
    ensures ReadBack(TableFor(d, name)) == Get(d, name).GetOr([])
    ensures Get(d, name).None? ==> TableFor(d, name) == []
  {
    if Get(d, name).Some? {
      ReadBackFilled(Get(d, name).value);
    }
  }

  /** `{'': []}`: the dictionary `class_save` does not write but deletes. */
  predicate IsPlaceholder(d: ClassInfo) {
    d == [("", [])]
  }

  /** What the save file holds after `class_save` with the dictionary `d`. */
  function Persisted(d: ClassInfo): (f: Option<ClassInfo>)
    ensures f.GetOr([]) == [] <==> d == [] || IsPlaceholder(d)
  {
    if IsPlaceholder(d) then None else Some(d)
  }

  /** `findText`: the first position of `x`. */
  function FirstIndex(items: seq<string>, x: string): (i: nat)
    requires x in items
    ensures i < |items| && items[i] == x
    ensures forall j :: 0 <= j < i ==> items[j] != x
  {
    if items[0] == x then 0 else FirstIndex(items[1..], x) + 1
  }

  /** The current index Qt selects after the current item at `i` is removed from `items`. */
  function IndexAfterRemoval(items: seq<string>, i: int): (j: int)
    requires 0 <= i < |items|
    ensures -1 <= j < |items| - 1
    ensures j == -1 <==> |items| == 1
  {
    if |items| == 1 then -1 else if i < |items| - 1 then i else i - 1
  }

  function RemoveAt(items: seq<string>, i: int): (r: seq<string>)
    requires 0 <= i < |items|
    ensures |r| == |items| - 1
    ensures forall j :: 0 <= j < |r| ==> r[j] == if j < i then items[j] else items[j + 1]
  {
    items[..i] + items[i + 1..]
  }

  /**
   * The entry Qt selects after removing the current one: the entry that followed it, or the one
   * before it when the last entry was removed.
   */
  lemma IndexAfterRemovalSelects(items: seq<string>, i: int)
    requires 0 <= i < |items| && |items| > 1
    ensures RemoveAt(items, i)[IndexAfterRemoval(items, i)] ==
      (if i < |items| - 1 then items[i + 1] else items[i - 1])
  {
  }

  /** The text shown by a drop-down with entries `items` and current index `i`. */
  function TextAt(items: seq<string>, i: int): string {
    if 0 <= i < |items| then items[i] else ""
  }

  /**
   * The class-schedule editor: `class_info`, the `class_selection` drop-down (its entries and
   * current index), the two-column table and the save file (None when it does not exist).
   * Every change of the drop-down's current text reloads the table (line 179).
   */
  class TwoColumnWidget {
    var classInfo: ClassInfo
    var items: seq<string>
    var current: int
    var table: seq<Row>
    var saveFile: Option<ClassInfo>

    ghost predicate Valid()
      reads this
    {
      && DistinctKeys(classInfo)
      && -1 <= current < |items|
      && (current == -1 <==> items == [])
    }

    function CurrentText(): string
      reads this
    {
      TextAt(items, current)
    }

    /** Reads the save file if there is one (lines 79-95), then loads the first class (line 182). */
    constructor (file: Option<ClassInfo>)
      requires file.Some? ==> DistinctKeys(file.value)
      ensures Valid()
      ensures classInfo == file.GetOr([]) && saveFile == file
      ensures items == Keys(classInfo)
      ensures CurrentText() == if items == [] then "" else items[0]
      ensures table == TableFor(classInfo, CurrentText())
    {
      classInfo := file.GetOr([]);
      items := Keys(file.GetOr([]));
      current := if file.GetOr([]) == [] then -1 else 0;
      table := [];
      saveFile := file;
      new;
      LoadData();
    }

    /** `load_data`: fill the table with the current class's schedule, or empty it. */
    method LoadData()
      modifies this`table
      ensures table == TableFor(classInfo, CurrentText())
    {
      var name := CurrentText();
      var found := Get(classInfo, name);
      if found.Some? {
        var s := found.value;
        table := [];
        var i := 0;
        while i < |s|
          invariant 0 <= i <= |s|
          invariant table == Filled(s[..i])
        {
          table := table + [Row(None, None)];
          table := table[i := Row(Some(s[i].0), None)];
          table := table[i := Row(Some(s[i].0), Some(s[i].1))];
          assert s[..i + 1][..i] == s[..i];
          i := i + 1;
        }
        assert s[..i] == s;
      } else {
        // setItem(0, 0, ...) on a table without rows changes nothing
        table := [];
      }
    }

    /** `get_data`: one (start, end) pair per table row, in row order. */
    method GetData() returns (r: Schedule)
      ensures r == ReadBack(table)
    {
      r := [];
      var row := 0;
      while row < |table|
        invariant 0 <= row <= |table|
        invariant r == ReadBack(table[..row])
      {
        var col1 := if table[row].start.Some? then table[row].start.value else "";
        var col2 := if table[row].end.Some? then table[row].end.value else "";
        r := r + [(col1, col2)];
        assert table[..row + 1][..row] == table[..row];
        row := row + 1;
      }
      assert table[..row] == table;
    }

    /** `add_row`: a new row without items at the end. */
    method AddRow()
      modifies this`table
      ensures table == old(table) + [Row(None, None)]
      ensures ReadBack(table) == ReadBack(old(table)) + [("", "")]
    {
      table := table + [Row(None, None)];
      assert table[..|table| - 1] == old(table);
    }

    /** `remove_selected_row`, given the table's current row (-1 when there is none). */
    method RemoveSelectedRow(row: int)
      requires -1 <= row < |table|
      modifies this`table
      ensures row >= 0 ==> table == old(table)[..row] + old(table)[row + 1..]
      ensures row < 0 ==> table == old(table)
    {
      if row >= 0 {
        table := table[..row] + table[row + 1..];
      }
    }

    /** The user typing `text` into a cell of the table (editing is enabled at line 143). */
    method EditCell(row: nat, column: nat, text: string)
      requires row < |table| && column < 2
      modifies this`table
      ensures |table| == |old(table)|
      ensures table == old(table)[row := if column == 0 then old(table)[row].(start := Some(text))
                                                       else old(table)[row].(end := Some(text))]
    {
      if column == 0 {
        table := table[row := table[row].(start := Some(text))];
      } else {
        table := table[row := table[row].(end := Some(text))];
      }
    }

    /**
     * `class_add` with the dialog's answer (`name`, `ok`): a new class with an empty schedule,
     * appended to the drop-down and selected.
     */
    method ClassAdd(name: string, ok: bool)
      requires Valid()
      modifies this
      ensures Valid()
      ensures saveFile == old(saveFile)
      ensures ok && name != "" ==>
        && classInfo == Set(old(classInfo), name, [])
        && items == old(items) + [name]
        && current == FirstIndex(items, name)
        && CurrentText() == name
        && table == []
      ensures !(ok && name != "") ==>
        classInfo == old(classInfo) && items == old(items) && current == old(current) && table == old(table)
    {
      if ok && name != "" {
        SetDistinct(classInfo, name, []);
        classInfo := Set(classInfo, name, []);
        items := items + [name];
        if current == -1 {
          // the first entry of an empty drop-down becomes current
          current := 0;
          LoadData();
        }
        var i := FirstIndex(items, name);
        if i != current {
          var changed := CurrentText() != name;
          current := i;
          if changed {
            LoadData();
          }
        }
        LoadData();
        GetSet(old(classInfo), name, [], name);
      }
    }

    /**
     * `class_save`: store the table under the current name, then write the dictionary to the
     * save file, or delete the file when the dictionary is `{'': []}`.
     */
    method ClassSave()
      requires Valid()
      modifies this`classInfo, this`saveFile
      ensures Valid()
      ensures classInfo == Set(old(classInfo), CurrentText(), ReadBack(table))
      ensures saveFile == Persisted(classInfo)
    {
      var rows := GetData();
      SetDistinct(classInfo, CurrentText(), rows);
      classInfo := Set(classInfo, CurrentText(), rows);
      if !IsPlaceholder(classInfo) {
        saveFile := Some(classInfo);
      } else if saveFile.Some? {
        saveFile := None;
      }
    }

    /**
     * `class_remove`: drop the current class from the dictionary and the drop-down, then save.
     * `ok` is false when the current name is not a key (the KeyError of `pop`); nothing changes then.
     */
    method ClassRemove() returns (ok: bool)
      requires Valid()
      modifies this
      ensures Valid()
      ensures ok <==> (old(CurrentText()) == "" || old(CurrentText()) in Keys(old(classInfo)))
      ensures old(CurrentText()) == "" || !ok ==>
        classInfo == old(classInfo) && items == old(items) && current == old(current)
        && table == old(table) && saveFile == old(saveFile)
      ensures old(CurrentText()) != "" && ok ==>
        && items == RemoveAt(old(items), old(current))
        && current == IndexAfterRemoval(old(items), old(current))
        && table == (if CurrentText() != old(CurrentText())
                     then TableFor(Pop(old(classInfo), old(CurrentText())), CurrentText())
                     else old(table))
        && classInfo == Set(Pop(old(classInfo), old(CurrentText())), CurrentText(), ReadBack(table))
        && saveFile == Persisted(classInfo)
    {
      var name := CurrentText();
      ok := true;
      if name != "" {
        if name !in Keys(classInfo) {
          ok := false;
          return;
        }
        PopDistinct(classInfo, name);
        classInfo := Pop(classInfo, name);
        var i, before := current, items;
        items := RemoveAt(before, i);
        current := IndexAfterRemoval(before, i);
        if CurrentText() != name {
          LoadData();
        }
        ClassSave();
      }
    }
  }

  /** After `class_add`, the new class reads an empty schedule and the others are untouched. */
  lemma ClassAddSchedules(d: ClassInfo, name: string, other: string)
    requires other != name
    ensures Get(Set(d, name, []), name) == Some([])
    ensures Get(Set(d, name, []), other) == Get(d, other)
  {
    GetSet(d, name, [], name);
    GetSet(d, name, [], other);
  }

  /** After `class_remove` of `name`, it reads no schedule until it is stored again. */
  lemma ClassRemoveForgets(d: ClassInfo, name: string, other: string)
    requires DistinctKeys(d) && name in Keys(d) && other != name
    ensures Get(Pop(d, name), name) == None
    ensures Get(Pop(d, name), other) == Get(d, other)
  {
    GetPopRemoved(d, name);
    GetPopKept(d, name, other);
  }

  /**
   * `class_save`, then a new widget opened on the save file: it holds the saved classes, with
   * their names in the drop-down in the same order, or nothing when the placeholder was saved.
   */
  method SaveReopen(w: TwoColumnWidget) returns (reopened: TwoColumnWidget)
    requires w.Valid()
    modifies w
    ensures w.classInfo == Set(old(w.classInfo), w.CurrentText(), ReadBack(w.table))
    ensures reopened.classInfo == (if IsPlaceholder(w.classInfo) then [] else w.classInfo)
    ensures reopened.items == (if IsPlaceholder(w.classInfo) then [] else Keys(w.classInfo))
    ensures reopened.saveFile == w.saveFile
  {
    w.ClassSave();
    reopened := new TwoColumnWidget(w.saveFile);
  }

  // ----------------------------------------------------------------------------------------------
  // CheckableComboBox
  // ----------------------------------------------------------------------------------------------

  /** An entry of the student filter: its text and whether it is checked. */
  type Entry = (string, bool)

  /** The entries after a press on entry `i`: its check state flipped. */
  function Toggled(e: seq<Entry>, i: nat): (r: seq<Entry>)
    requires i < |e|
    ensures |r| == |e| && r[i] == (e[i].0, !e[i].1)
    ensures forall j :: 0 <= j < |e| && j != i ==> r[j] == e[j]
  {
    e[i := (e[i].0, !e[i].1)]
  }

  /** Two presses on the same entry change nothing. */
  lemma ToggledTwice(e: seq<Entry>, i: nat)
    requires i < |e|
    ensures Toggled(Toggled(e, i), i) == e
  {
  }

  /** The texts of the checked entries, in entry order. */
  function CheckedTexts(e: seq<Entry>): (r: seq<string>)
    ensures |r| <= |e|
  {
    if e == [] then []
    else
      var n := |e| - 1;
      CheckedTexts(e[..n]) + (if e[n].1 then [e[n].0] else [])
  }

  /** A text is reported exactly when some checked entry carries it. */
  lemma {:induction false} CheckedTextsMembers(e: seq<Entry>, x: string)
    ensures x in CheckedTexts(e) <==> exists i :: 0 <= i < |e| && e[i] == (x, true)
  {
    if e != [] {
      var n := |e| - 1;
      CheckedTextsMembers(e[..n], x);
      if x in CheckedTexts(e[..n]) {
        var i :| 0 <= i < n && e[..n][i] == (x, true);
        assert e[i] == (x, true);
      }
      if exists i :: 0 <= i < |e| && e[i] == (x, true) {
        var i :| 0 <= i < |e| && e[i] == (x, true);
        if i < n {
          assert e[..n][i] == (x, true);
        }
      }
    }
  }

  /** When every entry is checked, the report is every text in order. */
  lemma {:induction false} CheckedTextsAllChecked(e: seq<Entry>)
    requires forall i :: 0 <= i < |e| ==> e[i].1
    ensures |CheckedTexts(e)| == |e|
    ensures forall i :: 0 <= i < |e| ==> CheckedTexts(e)[i] == e[i].0
  {
    if e != [] {
      var n := |e| - 1;
      CheckedTextsAllChecked(e[..n]);
    }
  }

  /** The student filter: a drop-down of checkable entries. */
  class CheckableComboBox {
    var entries: seq<Entry>

    constructor ()
      ensures entries == []
    {
      entries := [];
    }

    /** `add_checkable_item`. */
    method AddCheckableItem(text: string, checked: bool)
      modifies this
      ensures entries == old(entries) + [(text, checked)]
    {
      entries := entries + [(text, checked)];
    }

    /** `handle_item_pressed` on the entry at `index` (a press always hits an entry). */
    method HandleItemPressed(index: nat)
      requires index < |entries|
      modifies this
      ensures entries == Toggled(old(entries), index)
    {
      var item := entries[index];
      if item.1 {
        entries := entries[index := (item.0, false)];
      } else {
        entries := entries[index := (item.0, true)];
      }
    }

    /** `checked_items`. */
    method CheckedItems() returns (r: seq<string>)
      ensures r == CheckedTexts(entries)
    {
      r := [];
      var i := 0;
      while i < |entries|
        invariant 0 <= i <= |entries|
        invariant r == CheckedTexts(entries[..i])
      {
        if entries[i].1 {
          r := r + [entries[i].0];
        }
        assert entries[..i + 1][..i] == entries[..i];
        i := i + 1;
      }
      assert entries[..i] == entries;
    }

    /** `clear`. */
    method Clear()
      modifies this
      ensures entries == []
    {
      entries := [];
    }
  }
}
