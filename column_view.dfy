/**
 * What a column reads from the store and the guards in front of its edits
 * (src/components/Column.tsx): the column's title and ids looked up by id,
 * the tasks those ids name in order, and the checks the title input and the
 * "New" button make before calling the store.
 */
module ColumnView {
  import opened Wrappers
  import opened Types
  import opened JsString
  import opened SeqOps
  import opened BoardActions

  /** The slice of the store a column shows. */
  datatype ColumnSlice = ColumnSlice(title: string, taskIds: seq<TaskId>)

  /** `selectColumn(columnId)`: the first column with that id, or an empty title and no ids. */
  function SelectColumn(cols: seq<Column>, columnId: ColumnId): (r: ColumnSlice)
    ensures (forall k :: 0 <= k < |cols| ==> cols[k].id != columnId) ==> r == ColumnSlice("", [])
    ensures forall i :: (0 <= i < |cols| && cols[i].id == columnId && (forall k :: 0 <= k < i ==> cols[k].id != columnId)
      ==> r == ColumnSlice(cols[i].title, cols[i].taskIds))
  {
    match FindColumn(cols, columnId)
    case None => ColumnSlice("", [])
    case Some(j) =>
      ColumnSlice(cols[j].title, cols[j].taskIds)
  }

  /** On a board with unique column ids, every column reads back its own title and ids. */
  lemma SelectEveryColumn(b: BoardState, i: nat)
    requires UniqueColumnIds(b.columns) && i < |b.columns|
    ensures SelectColumn(b.columns, b.columns[i].id) == ColumnSlice(b.columns[i].title, b.columns[i].taskIds)
  {
  }

  /** `selectTasks(ids)`: the tasks the ids name, in the order of the ids, skipping ids with no task. */
  function SelectTasks(ids: seq<TaskId>, tasks: map<TaskId, Task>): (r: seq<Task>)
    ensures |r| <= |ids|
    ensures forall k :: 0 <= k < |r| ==> r[k] in tasks.Values
    ensures (forall x :: x in ids ==> x in tasks) ==>
      |r| == |ids| && forall k :: 0 <= k < |ids| ==> r[k] == tasks[ids[k]]
  {
    if ids == [] then []
    else
      (if ids[0] in tasks then [tasks[ids[0]]] else []) + SelectTasks(ids[1..], tasks)
  }

  /** The projection keeps order: it distributes over concatenation of the ids. */
  lemma {:induction false} SelectTasksConcat(a: seq<TaskId>, c: seq<TaskId>, tasks: map<TaskId, Task>)
    ensures SelectTasks(a + c, tasks) == SelectTasks(a, tasks) + SelectTasks(c, tasks)
  {
    if a == [] {
      assert a + c == c;
    } else {
      assert (a + c)[0] == a[0];
      assert (a + c)[1..] == a[1..] + c;
      SelectTasksConcat(a[1..], c, tasks);
    }
  }

  /** An id with no task contributes nothing: dropping it from the ids does not change the tasks shown. */
  lemma {:induction false} SelectTasksSkipsMissing(ids: seq<TaskId>, x: TaskId, tasks: map<TaskId, Task>)
    requires x !in tasks
    ensures SelectTasks(Without(ids, x), tasks) == SelectTasks(ids, tasks)
  {
    if ids != [] {
      var head: seq<TaskId> := if ids[0] == x then [] else [ids[0]];
      assert Without(ids, x) == head + Without(ids[1..], x);
      SelectTasksConcat(head, Without(ids[1..], x), tasks);
      SelectTasksSkipsMissing(ids[1..], x, tasks);
      assert SelectTasks(head, tasks) == (if ids[0] in tasks then [tasks[ids[0]]] else []) by {
        if head != [] {
          assert head[1..] == [];
        }
      }
    }
  }

  /** On a consistent board a column shows one task per id it lists, in its order. */
  lemma ColumnShowsEveryTask(b: BoardState, i: nat)
    requires Consistent(b) && i < |b.columns|
    ensures var ids := b.columns[i].taskIds;
      var shown := SelectTasks(ids, b.tasks);
      |shown| == |ids| && forall k :: 0 <= k < |ids| ==> ids[k] in b.tasks && shown[k] == b.tasks[ids[k]]
  {
    ColumnOwned(b.columns, i);
    forall x | x in b.columns[i].taskIds ensures x in b.tasks {
      assert x in multiset(b.columns[i].taskIds);
    }
  }

  /** The title input's `onChange`: the value to pass to `renameColumn`, only when it differs from the shown title. */
  function OnTitleChange(shown: string, next: string): (r: Option<string>)
    ensures r.Some? <==> next != shown
    ensures r.Some? ==> r.value == next
  {
    if next != shown then Some(next) else None
  }

  /**
   * After the rename the input's change triggers, the column shows the
   * trimmed value: typing a trailing space into a trimmed title calls the
   * store but leaves every column's content as it was.
   */
  lemma TitleEditShowsTrimmed(b: BoardState, i: nat, next: string)
    requires UniqueColumnIds(b.columns) && i < |b.columns|
    requires OnTitleChange(b.columns[i].title, next).Some?
    ensures var r := RenameColumn(b, b.columns[i].id, next);
      SelectColumn(r.columns, b.columns[i].id) == ColumnSlice(Trim(next), b.columns[i].taskIds)
  {
    var r := RenameColumn(b, b.columns[i].id, next);
    RenameColumnEffect(b, b.columns[i].id, next);
    SelectSameIds(b.columns, r.columns, i);
  }

  /** A column list with the same ids in the same order shows, for a column of a unique-id board, its own entry. */
  lemma SelectSameIds(cols: seq<Column>, next: seq<Column>, i: nat)
    requires UniqueColumnIds(cols) && i < |cols|
    requires |next| == |cols| && forall k :: 0 <= k < |cols| ==> next[k].id == cols[k].id
    ensures SelectColumn(next, cols[i].id) == ColumnSlice(next[i].title, next[i].taskIds)
  {
    FindColumnSameIds(cols, next, cols[i].id);
    assert FindColumn(cols, cols[i].id) == Some(i);
  }

  lemma TrailingSpaceKeepsColumns(b: BoardState, i: nat)
    requires UniqueColumnIds(b.columns) && i < |b.columns| && IsTrimmed(b.columns[i].title)
    ensures var next := b.columns[i].title + " ";
      && OnTitleChange(b.columns[i].title, next) == Some(next)
      && RenameColumn(b, b.columns[i].id, next) == b
  {
    var t := b.columns[i].title;
    var next := t + " ";
    assert Trim(next) == t by {
      assert AllWhitespace(" ");
      assert [] + t + " " == next;
      TrimPadded([], t, " ");
    }
    assert next != t by {
      assert |next| != |t|;
    }
    forall k | 0 <= k < |b.columns| && b.columns[k].id == b.columns[i].id
      ensures b.columns[k].title == Trim(next)
    {
      assert k == i;
    }
    RenameColumnEffect(b, b.columns[i].id, next);
  }

  /**
   * The "New" button: `title` and `description` are what the two prompts
   * return (`None` for a cancelled prompt). An empty or cancelled title adds
   * nothing; an empty or cancelled description becomes absent.
   */
  function OnNewTaskClick(title: Option<string>, description: Option<string>): (r: Option<NewTaskInput>)
    ensures r.Some? <==> title.Some? && title.value != ""
    ensures r.Some? ==> r.value.title == title.value
    ensures r.Some? ==> (r.value.description.None? <==> description.None? || description.value == "")
    ensures r.Some? && r.value.description.Some? ==> r.value.description == description
  {
    if title.None? || title.value == "" then None
    else
      var d := if description.None? || description.value == "" then None else description;
      Some(NewTaskInput(title.value, d))
  }

  /**
   * The guard tests the raw answer, before trimming: a title of spaces gets
   * through and the store creates a task whose title is empty.
   */
  lemma BlankTitleGetsThrough(id: TaskId, now: Timestamp)
    ensures var input := OnNewTaskClick(Some("  "), None);
      && input.Some?
      && NewTask(id, input.value, now).title == ""
      && NewTask(id, input.value, now).description.None?
  {
    var s := "  ";
    assert AllWhitespace(s);
    assert s + [] + [] == s;
    TrimPadded(s, [], []);
  }
}
