/**
 * What each store action does to the board, as a function of the board
 * before it (src/store.ts). The store's actions compute the next `columns`
 * and `tasks` with `map`/`filter`/spread expressions and splices of local
 * copies; this module gives those computations and proves what they keep:
 * referential consistency, permutation, cascade and frame.
 */
module BoardActions {
  import opened Wrappers
  import opened Types
  import opened JsString
  import opened SeqOps

  // ---------------------------------------------------------------------
  // Finding columns
  // ---------------------------------------------------------------------

  /** `columns.findIndex(c => c.id === id)`, with `None` for -1. */
  function FindColumn(cols: seq<Column>, id: ColumnId): (r: Option<nat>)
    ensures r.Some? ==> r.value < |cols| && cols[r.value].id == id
    ensures r.Some? ==> forall k :: 0 <= k < r.value ==> cols[k].id != id
    ensures r.None? <==> forall k :: 0 <= k < |cols| ==> cols[k].id != id
  {
    if cols == [] then None
    else if cols[0].id == id then Some(0)
    else match FindColumn(cols[1..], id)
      case None => None
      case Some(i) => Some(i + 1)
  }

  /** `columns.findIndex(c => c.taskIds.includes(taskId))`: the first column owning the task. */
  function FindOwner(cols: seq<Column>, taskId: TaskId): (r: Option<nat>)
    ensures r.Some? ==> r.value < |cols| && taskId in cols[r.value].taskIds
    ensures r.Some? ==> forall k :: 0 <= k < r.value ==> taskId !in cols[k].taskIds
    ensures r.None? <==> forall k :: 0 <= k < |cols| ==> taskId !in cols[k].taskIds
  {
    if cols == [] then None
    else if taskId in cols[0].taskIds then Some(0)
    else match FindOwner(cols[1..], taskId)
      case None => None
      case Some(i) => Some(i + 1)
  }

  /** `columns.map(c => c.id === id ? f(c) : c)`. */
  function UpdateWhere(cols: seq<Column>, id: ColumnId, f: Column -> Column): (r: seq<Column>)
    ensures |r| == |cols|
    ensures forall k :: 0 <= k < |cols| ==> r[k] == if cols[k].id == id then f(cols[k]) else cols[k]
  {
    seq(|cols|, k requires 0 <= k < |cols| => if cols[k].id == id then f(cols[k]) else cols[k])
  }

  /** `columns.filter(c => c.id !== id)`. */
  function WithoutColumn(cols: seq<Column>, id: ColumnId): (r: seq<Column>)
    ensures forall k :: 0 <= k < |r| ==> r[k].id != id
    ensures |r| <= |cols|
    ensures forall c :: c in r <==> c in cols && c.id != id
  {
    if cols == [] then []
    else (if cols[0].id == id then [] else [cols[0]]) + WithoutColumn(cols[1..], id)
  }

  // ---------------------------------------------------------------------
  // Ownership and the consistency invariant
  // ---------------------------------------------------------------------

  /** Every task id held by some column, counted once per occurrence. */
  ghost function Owned(cols: seq<Column>): multiset<TaskId>
  {
    if cols == [] then multiset{} else multiset(cols[0].taskIds) + Owned(cols[1..])
  }

  ghost predicate UniqueColumnIds(cols: seq<Column>) {
    forall i, j :: 0 <= i < j < |cols| ==> cols[i].id != cols[j].id
  }

  /** No task id occurs twice, neither within one column nor across two. */
  ghost predicate ExclusiveOwnership(cols: seq<Column>) {
    forall x :: Owned(cols)[x] <= 1
  }

  /** Every id in every column's `taskIds` is a key of `tasks`. */
  ghost predicate NoDangling(b: BoardState) {
    forall x :: x in Owned(b.columns) ==> x in b.tasks
  }

  ghost predicate Consistent(b: BoardState) {
    UniqueColumnIds(b.columns) && ExclusiveOwnership(b.columns) && NoDangling(b)
  }

  lemma {:induction false} OwnedConcat(a: seq<Column>, b: seq<Column>)
    ensures Owned(a + b) == Owned(a) + Owned(b)
  {
    if a == [] {
      assert a + b == b;
    } else {
      assert (a + b)[0] == a[0];
      assert (a + b)[1..] == a[1..] + b;
      OwnedConcat(a[1..], b);
    }
  }

  lemma OwnedSplit(cols: seq<Column>, i: nat)
    requires i < |cols|
    ensures Owned(cols) == Owned(cols[..i]) + (multiset(cols[i].taskIds) + Owned(cols[i + 1..]))
  {
    var pre, post := cols[..i], cols[i + 1..];
    var mid := [cols[i]] + post;
    assert cols[i..] == mid;
    assert cols == pre + mid by {
      assert cols == cols[..i] + cols[i..];
    }
    OwnedConcat(pre, mid);
    OwnedCons(cols[i], post);
    assert Owned(mid) == multiset(cols[i].taskIds) + Owned(post);
  }

  lemma OwnedCons(c: Column, rest: seq<Column>)
    ensures Owned([c] + rest) == multiset(c.taskIds) + Owned(rest)
  {
    assert ([c] + rest)[1..] == rest;
  }

  /** Replacing one column changes the owned ids by that column's ids only. */
  lemma OwnedUpdate(cols: seq<Column>, i: nat, c: Column)
    requires i < |cols|
    ensures forall y :: Owned(cols[i := c])[y] + multiset(cols[i].taskIds)[y] == Owned(cols)[y] + multiset(c.taskIds)[y]
  {
    OwnedSplit(cols, i);
    OwnedSplit(cols[i := c], i);
    assert cols[i := c][..i] == cols[..i];
    assert cols[i := c][i + 1..] == cols[i + 1..];
  }

  lemma OwnedUpdateAt(cols: seq<Column>, i: nat, c: Column, y: TaskId)
    requires i < |cols|
    ensures Owned(cols[i := c])[y] + multiset(cols[i].taskIds)[y] == Owned(cols)[y] + multiset(c.taskIds)[y]
  {
    OwnedUpdate(cols, i, c);
  }

  /** Removing one column removes exactly its ids. */
  lemma OwnedRemove(cols: seq<Column>, i: nat)
    requires i < |cols|
    ensures Owned(RemoveAt(cols, i)) + multiset(cols[i].taskIds) == Owned(cols)
  {
    OwnedSplit(cols, i);
    assert RemoveAt(cols, i) == cols[..i] + cols[i + 1..];
    OwnedConcat(cols[..i], cols[i + 1..]);
  }

  /** A column's ids are among the owned ids. */
  lemma ColumnOwned(cols: seq<Column>, i: nat)
    requires i < |cols|
    ensures multiset(cols[i].taskIds) <= Owned(cols)
  {
    OwnedSplit(cols, i);
  }

  /** Two different columns' ids are owned side by side. */
  lemma TwoColumnsOwned(cols: seq<Column>, i: nat, j: nat)
    requires i < j < |cols|
    ensures forall y :: multiset(cols[i].taskIds)[y] + multiset(cols[j].taskIds)[y] <= Owned(cols)[y]
  {
    var rest := cols[i + 1..];
    OwnedSplit(cols, i);
    OwnedSplit(rest, j - i - 1);
    assert rest[j - i - 1] == cols[j];
    forall y ensures multiset(cols[i].taskIds)[y] + multiset(cols[j].taskIds)[y] <= Owned(cols)[y] {
      assert Owned(cols)[y] == Owned(cols[..i])[y] + multiset(cols[i].taskIds)[y] + Owned(rest)[y];
      assert multiset(cols[j].taskIds)[y] <= Owned(rest)[y];
    }
  }

  /** Ownership in the column-by-column sense: a task id sits in at most one column. */
  lemma OwnerIsUnique(cols: seq<Column>, i: nat, j: nat, x: TaskId)
    requires ExclusiveOwnership(cols)
    requires i < |cols| && j < |cols|
    requires x in cols[i].taskIds && x in cols[j].taskIds
    ensures i == j
  {
    assert x in multiset(cols[i].taskIds) && x in multiset(cols[j].taskIds);
    assert Owned(cols)[x] <= 1;
    if i < j {
      TwoColumnsOwned(cols, i, j);
      assert false;
    } else if j < i {
      TwoColumnsOwned(cols, j, i);
      assert false;
    }
  }

  /** No dangling reference, in the column-by-column sense. */
  lemma OwnedIdIsKnown(b: BoardState, i: nat, j: nat)
    requires NoDangling(b)
    requires i < |b.columns| && j < |b.columns[i].taskIds|
    ensures b.columns[i].taskIds[j] in b.tasks
  {
    ColumnOwned(b.columns, i);
    assert b.columns[i].taskIds[j] in multiset(b.columns[i].taskIds);
  }

  lemma {:induction false} OwnedMembership(cols: seq<Column>, x: TaskId)
    ensures x in Owned(cols) <==> FindOwner(cols, x).Some?
  {
    if cols != [] {
      OwnedMembership(cols[1..], x);
    }
  }

  lemma UpdateWhereUnique(cols: seq<Column>, id: ColumnId, f: Column -> Column, i: nat)
    requires UniqueColumnIds(cols)
    requires i < |cols| && cols[i].id == id
    ensures UpdateWhere(cols, id, f) == cols[i := f(cols[i])]
  {
  }

  lemma UpdateWhereAbsent(cols: seq<Column>, id: ColumnId, f: Column -> Column)
    requires forall k :: 0 <= k < |cols| ==> cols[k].id != id
    ensures UpdateWhere(cols, id, f) == cols
  {
  }

  lemma {:induction false} WithoutColumnUnique(cols: seq<Column>, id: ColumnId, i: nat)
    requires UniqueColumnIds(cols)
    requires i < |cols| && cols[i].id == id
    ensures WithoutColumn(cols, id) == RemoveAt(cols, i)
  {
    if i == 0 {
      WithoutColumnAbsent(cols[1..], id);
    } else {
      assert cols[1..][i - 1] == cols[i];
      WithoutColumnUnique(cols[1..], id, i - 1);
      assert RemoveAt(cols, i) == [cols[0]] + RemoveAt(cols[1..], i - 1);
    }
  }

  lemma {:induction false} WithoutColumnAbsent(cols: seq<Column>, id: ColumnId)
    requires forall k :: 0 <= k < |cols| ==> cols[k].id != id
    ensures WithoutColumn(cols, id) == cols
  {
    if cols != [] {
      WithoutColumnAbsent(cols[1..], id);
    }
  }

  lemma UniqueAfterRemove(cols: seq<Column>, i: nat)
    requires UniqueColumnIds(cols) && i < |cols|
    ensures UniqueColumnIds(RemoveAt(cols, i))
  {
    var r := RemoveAt(cols, i);
    forall a, b | 0 <= a < b < |r| ensures r[a].id != r[b].id {
      var a' := if a < i then a else a + 1;
      var b' := if b < i then b else b + 1;
      assert r[a] == cols[a'] && r[b] == cols[b'];
    }
  }

  // ---------------------------------------------------------------------
  // The seed state
  // ---------------------------------------------------------------------

  const InitialColumns: seq<Column> := [
    Column("col_todo", "To Do", []),
    Column("col_inprogress", "In Progress", []),
    Column("col_done", "Done", [])
  ]

  /** `initial`: three empty columns and no tasks; the bootstrap state and the reset target. */
  function Initial(): (r: BoardState)
    ensures |r.columns| == 3 && r.tasks == map[]
    ensures forall k :: 0 <= k < 3 ==> r.columns[k].taskIds == []
  {
    BoardState(InitialColumns, map[])
  }

  lemma InitialConsistent()
    ensures Consistent(Initial())
  {
    var cols := Initial().columns;
    assert Owned(cols) == multiset{} by {
      assert cols[1..][1..][1..] == [];
      assert Owned(cols[1..][1..]) == multiset{};
      assert Owned(cols[1..]) == multiset{};
    }
  }

  // ---------------------------------------------------------------------
  // The actions
  // ---------------------------------------------------------------------

  /** The task `addTask` creates: trimmed fields, both timestamps the creation time. */
  function NewTask(id: TaskId, input: NewTaskInput, now: Timestamp): (t: Task)
    ensures t.id == id && t.createdAt == t.updatedAt == now
    ensures IsTrimmed(t.title) && (t.description.Some? ==> IsTrimmed(t.description.value))
    ensures t.title == Trim(input.title) && t.description == TrimOpt(input.description)
  {
    Task(id, Trim(input.title), TrimOpt(input.description), now, now)
  }

  /** `addTask(columnId, input)` with `id` from the id generator and `now` from the clock. */
  function AddTask(b: BoardState, columnId: ColumnId, input: NewTaskInput, id: TaskId, now: Timestamp): (r: BoardState)
    ensures r.tasks.Keys == b.tasks.Keys + {id}
    ensures |r.columns| == |b.columns| && forall k :: 0 <= k < |b.columns| ==> r.columns[k].id == b.columns[k].id
  {
    BoardState(
      UpdateWhere(b.columns, columnId, (c: Column) => c.(taskIds := c.taskIds + [id])),
      b.tasks[id := NewTask(id, input, now)])
  }

  /** `editTask(input)` at time `now`. */
  function EditTask(b: BoardState, input: EditTaskInput, now: Timestamp): (r: BoardState)
    ensures r.columns == b.columns && r.tasks.Keys == b.tasks.Keys
  {
    if input.id !in b.tasks then b
    else
      var t := b.tasks[input.id];
      var updated := t.(title := Trim(input.title), description := TrimOpt(input.description), updatedAt := now);
      b.(tasks := b.tasks[input.id := updated])
  }

  /** The `columns.map` of `deleteTask`: filter the id out of every column. */
  function StripTask(cols: seq<Column>, taskId: TaskId): (r: seq<Column>)
    ensures |r| == |cols|
    ensures forall k :: 0 <= k < |cols| ==> r[k] == cols[k].(taskIds := Without(cols[k].taskIds, taskId))
  {
    if cols == [] then []
    else [cols[0].(taskIds := Without(cols[0].taskIds, taskId))] + StripTask(cols[1..], taskId)
  }

  /** `deleteTask(taskId)`. */
  function DeleteTask(b: BoardState, taskId: TaskId): (r: BoardState)
    ensures r.tasks.Keys == b.tasks.Keys - {taskId}
    ensures |r.columns| == |b.columns| && forall k :: 0 <= k < |b.columns| ==> taskId !in r.columns[k].taskIds
  {
    BoardState(StripTask(b.columns, taskId), b.tasks - {taskId})
  }

  /** `moveTask(taskId, toColumnId, toIndex)`. */
  function MoveTask(b: BoardState, taskId: TaskId, toColumnId: ColumnId, toIndex: int): (r: BoardState)
    ensures r.tasks == b.tasks
    ensures |r.columns| == |b.columns| && forall k :: 0 <= k < |b.columns| ==> r.columns[k].id == b.columns[k].id
  {
    match (FindOwner(b.columns, taskId), FindColumn(b.columns, toColumnId))
    case (Some(f), Some(t)) =>
      var fromColumn := b.columns[f];
      var toColumn := b.columns[t];
      var fromIds := Without(fromColumn.taskIds, taskId);
      var toIds := InsertAt(toColumn.taskIds, toIndex, taskId);
      b.(columns := seq(|b.columns|, k requires 0 <= k < |b.columns| =>
        if b.columns[k].id == fromColumn.id then b.columns[k].(taskIds := fromIds)
        else if b.columns[k].id == toColumn.id then b.columns[k].(taskIds := toIds)
        else b.columns[k]))
    case _ => b
  }

  /** What `reorderTaskWithinColumn` needs: when the column exists, `fromIndex` is one of its positions. */
  predicate TaskIndexInRange(b: BoardState, columnId: ColumnId, fromIndex: int) {
    match FindColumn(b.columns, columnId)
    case None => true
    case Some(i) => 0 <= fromIndex < |b.columns[i].taskIds|
  }

  /** `reorderTaskWithinColumn(columnId, fromIndex, toIndex)`. */
  function ReorderTaskWithinColumn(b: BoardState, columnId: ColumnId, fromIndex: int, toIndex: int): (r: BoardState)
    requires TaskIndexInRange(b, columnId, fromIndex)
    ensures r.tasks == b.tasks
    ensures |r.columns| == |b.columns| && forall k :: 0 <= k < |b.columns| ==> r.columns[k].id == b.columns[k].id
  {
    match FindColumn(b.columns, columnId)
    case None => b
    case Some(i) =>
      var next := MoveItem(b.columns[i].taskIds, fromIndex, toIndex);
      b.(columns := UpdateWhere(b.columns, columnId, (c: Column) => c.(taskIds := next)))
  }

  /** `reorderColumns(fromIndex, toIndex)`. */
  function ReorderColumns(b: BoardState, fromIndex: int, toIndex: int): (r: BoardState)
    requires 0 <= fromIndex < |b.columns|
    ensures r.tasks == b.tasks && multiset(r.columns) == multiset(b.columns)
  {
    b.(columns := MoveItem(b.columns, fromIndex, toIndex))
  }

  /** `addColumn(title)` with `id` from the id generator. */
  function AddColumn(b: BoardState, title: string, id: ColumnId): (r: BoardState)
    ensures r.tasks == b.tasks && |r.columns| == |b.columns| + 1 && r.columns[..|b.columns|] == b.columns
    ensures r.columns[|b.columns|].id == id && r.columns[|b.columns|].taskIds == [] && IsTrimmed(r.columns[|b.columns|].title)
  {
    b.(columns := b.columns + [Column(id, Trim(title), [])])
  }

  /** `renameColumn(columnId, title)`: a column whose title already equals the trimmed one is kept as it is. */
  function RenameColumn(b: BoardState, columnId: ColumnId, title: string): (r: BoardState)
    ensures r.tasks == b.tasks
    ensures |r.columns| == |b.columns| && forall k :: 0 <= k < |b.columns| ==>
      r.columns[k].id == b.columns[k].id && r.columns[k].taskIds == b.columns[k].taskIds
  {
    var next := Trim(title);
    b.(columns := UpdateWhere(b.columns, columnId, (c: Column) => if c.title == next then c else c.(title := next)))
  }

  /** The ids a column lists, as a set. */
  function IdSet(ids: seq<TaskId>): (r: set<TaskId>)
    ensures forall x :: x in r <==> x in ids
  {
    set x | x in ids
  }

  /** `deleteColumn(columnId)`: the column goes, and so does every task it listed. */
  function DeleteColumn(b: BoardState, columnId: ColumnId): (r: BoardState)
    ensures r.tasks.Keys <= b.tasks.Keys && |r.columns| <= |b.columns|
    ensures forall k :: 0 <= k < |r.columns| ==> r.columns[k].id != columnId
  {
    match FindColumn(b.columns, columnId)
    case None => b
    case Some(i) => BoardState(WithoutColumn(b.columns, columnId), b.tasks - IdSet(b.columns[i].taskIds))
  }

  // ---------------------------------------------------------------------
  // What each action guarantees
  // ---------------------------------------------------------------------

  /**
   * addTask appends the fresh id to the end of the target column and adds the
   * task; no other column changes. With no such column the task is still
   * added, owned by no column. A fresh id keeps the board consistent.
   */
  lemma AddTaskEffect(b: BoardState, columnId: ColumnId, input: NewTaskInput, id: TaskId, now: Timestamp)
    requires Consistent(b) && id !in b.tasks
    ensures var r := AddTask(b, columnId, input, id, now);
      && r.tasks == b.tasks[id := NewTask(id, input, now)]
      && (match FindColumn(b.columns, columnId)
          case Some(i) =>
            && r.columns == b.columns[i := b.columns[i].(taskIds := b.columns[i].taskIds + [id])]
            && Owned(r.columns) == Owned(b.columns) + multiset{id}
          case None =>
            r.columns == b.columns)
      && Consistent(r)
  {
    var r := AddTask(b, columnId, input, id, now);
    var f := (c: Column) => c.(taskIds := c.taskIds + [id]);
    match FindColumn(b.columns, columnId)
    case Some(i) =>
      UpdateWhereUnique(b.columns, columnId, f, i);
      AppendTaskConsistent(b, i, id, NewTask(id, input, now));
    case None =>
      UpdateWhereAbsent(b.columns, columnId, f);
      assert id !in Owned(b.columns);
  }

  /** Appending a fresh task id to one column, and adding its task, keeps a consistent board consistent. */
  lemma AppendTaskConsistent(b: BoardState, i: nat, id: TaskId, t: Task)
    requires Consistent(b) && id !in b.tasks && i < |b.columns|
    ensures var rc := b.columns[i := b.columns[i].(taskIds := b.columns[i].taskIds + [id])];
      && Owned(rc) == Owned(b.columns) + multiset{id}
      && Consistent(BoardState(rc, b.tasks[id := t]))
  {
    var rc := b.columns[i := b.columns[i].(taskIds := b.columns[i].taskIds + [id])];
    var tasks := b.tasks[id := t];
    AppendTaskOwned(b.columns, i, id);
    assert id !in Owned(b.columns);
    assert ExclusiveOwnership(rc) by {
      forall x ensures Owned(rc)[x] <= 1 {
        assert Owned(rc)[x] == Owned(b.columns)[x] + multiset{id}[x];
      }
    }
    assert NoDangling(BoardState(rc, tasks)) by {
      forall x | x in Owned(rc) ensures x in tasks {
        assert Owned(rc)[x] == Owned(b.columns)[x] + multiset{id}[x];
      }
    }
    assert UniqueColumnIds(rc) by {
      assert forall k :: 0 <= k < |rc| ==> rc[k].id == b.columns[k].id;
    }
  }

  /** Appending an id to one column adds exactly that id to the owned ids. */
  lemma AppendTaskOwned(cols: seq<Column>, i: nat, id: TaskId)
    requires i < |cols|
    ensures Owned(cols[i := cols[i].(taskIds := cols[i].taskIds + [id])]) == Owned(cols) + multiset{id}
  {
    var c := cols[i].(taskIds := cols[i].taskIds + [id]);
    assert multiset(c.taskIds) == multiset(cols[i].taskIds) + multiset{id};
    forall y ensures Owned(cols[i := c])[y] == (Owned(cols) + multiset{id})[y] {
      OwnedUpdateAt(cols, i, c, y);
    }
  }

  /**
   * editTask changes only the edited task's title, description and
   * updatedAt; it keeps its id and createdAt, leaves the columns untouched,
   * and does nothing for an unknown id.
   */
  lemma EditTaskEffect(b: BoardState, input: EditTaskInput, now: Timestamp)
    ensures var r := EditTask(b, input, now);
      && r.columns == b.columns
      && r.tasks.Keys == b.tasks.Keys
      && (input.id !in b.tasks ==> r == b)
      && (forall x :: x in b.tasks && x != input.id ==> r.tasks[x] == b.tasks[x])
      && (input.id in b.tasks ==>
            var t, u := b.tasks[input.id], r.tasks[input.id];
            && u.id == t.id && u.createdAt == t.createdAt && u.updatedAt == now
            && u.title == Trim(input.title) && u.description == TrimOpt(input.description))
      && (Consistent(b) ==> Consistent(r))
  {
  }

  lemma {:induction false} OwnedStripTask(cols: seq<Column>, taskId: TaskId)
    ensures Owned(StripTask(cols, taskId)) == Owned(cols)[taskId := 0]
  {
    if cols != [] {
      OwnedStripTask(cols[1..], taskId);
      var r := StripTask(cols, taskId);
      assert r[1..] == StripTask(cols[1..], taskId);
    }
  }

  /**
   * deleteTask removes the id from `tasks` and from every column; each column
   * keeps its other ids in their order, and no other task changes.
   */
  lemma DeleteTaskEffect(b: BoardState, taskId: TaskId)
    ensures var r := DeleteTask(b, taskId);
      && taskId !in r.tasks
      && taskId !in Owned(r.columns)
      && Owned(r.columns) == Owned(b.columns)[taskId := 0]
      && (forall x :: x in b.tasks && x != taskId ==> x in r.tasks && r.tasks[x] == b.tasks[x])
      && |r.columns| == |b.columns|
      && (forall k :: 0 <= k < |b.columns| ==>
            && r.columns[k].id == b.columns[k].id && r.columns[k].title == b.columns[k].title
            && r.columns[k].taskIds == Without(b.columns[k].taskIds, taskId))
      && (Consistent(b) ==> Consistent(r))
    ensures DeleteTask(b, taskId).tasks.Keys == b.tasks.Keys - {taskId}
  {
    OwnedStripTask(b.columns, taskId);
    if Consistent(b) {
      DeleteTaskKeepsConsistent(b, taskId);
    }
  }

  lemma DeleteTaskKeepsConsistent(b: BoardState, taskId: TaskId)
    requires Consistent(b)
    ensures Consistent(DeleteTask(b, taskId))
  {
    var cols := StripTask(b.columns, taskId);
    var tasks := b.tasks - {taskId};
    assert DeleteTask(b, taskId) == BoardState(cols, tasks);
    var owned := Owned(cols);
    assert owned == Owned(b.columns)[taskId := 0] by {
      OwnedStripTask(b.columns, taskId);
    }
    assert UniqueColumnIds(cols) by {
      assert forall k :: 0 <= k < |b.columns| ==> cols[k].id == b.columns[k].id;
    }
    forall x ensures owned[x] <= 1 && (x in owned ==> x in tasks) {
      assert owned[x] == if x == taskId then 0 else Owned(b.columns)[x];
    }
  }

  /** moveTask does nothing when the task is in no column or the target column does not exist. */
  lemma MoveTaskNoOp(b: BoardState, taskId: TaskId, toColumnId: ColumnId, toIndex: int)
    requires FindOwner(b.columns, taskId).None? || FindColumn(b.columns, toColumnId).None?
    ensures MoveTask(b, taskId, toColumnId, toIndex) == b
  {
  }

  /**
   * Between two different columns, moveTask takes the id out of its column
   * and inserts it at the (clamped) index of the target; every other column
   * and every task stays as it was, the owned ids are the same multiset, and
   * the board stays consistent.
   */
  lemma MoveTaskBetweenColumns(b: BoardState, taskId: TaskId, toColumnId: ColumnId, toIndex: int, f: nat, t: nat)
    requires Consistent(b)
    requires FindOwner(b.columns, taskId) == Some(f) && FindColumn(b.columns, toColumnId) == Some(t)
    requires b.columns[f].id != toColumnId
    ensures var r := MoveTask(b, taskId, toColumnId, toIndex);
      var ids := b.columns[t].taskIds;
      && r.tasks == b.tasks
      && |r.columns| == |b.columns|
      && r.columns[f] == b.columns[f].(taskIds := Without(b.columns[f].taskIds, taskId))
      && r.columns[t] == b.columns[t].(taskIds := InsertAt(ids, toIndex, taskId))
      && r.columns[t].taskIds[SpliceStart(toIndex, |ids|)] == taskId
      && (forall k :: 0 <= k < |b.columns| && k != f && k != t ==> r.columns[k] == b.columns[k])
      && Owned(r.columns) == Owned(b.columns)
      && Consistent(r)
  {
    MoveTaskShape(b, taskId, toColumnId, toIndex, f, t);
    TransferConsistent(b, taskId, toIndex, f, t);
  }

  /** Moving an owned id from its column into another keeps the owned ids and a consistent board consistent. */
  lemma TransferConsistent(b: BoardState, taskId: TaskId, toIndex: int, f: nat, t: nat)
    requires Consistent(b)
    requires f < |b.columns| && t < |b.columns| && f != t && taskId in b.columns[f].taskIds
    ensures var cols := b.columns;
      var rc := cols[f := cols[f].(taskIds := Without(cols[f].taskIds, taskId))]
                    [t := cols[t].(taskIds := InsertAt(cols[t].taskIds, toIndex, taskId))];
      Owned(rc) == Owned(cols) && Consistent(b.(columns := rc))
  {
    var cols := b.columns;
    var rc := cols[f := cols[f].(taskIds := Without(cols[f].taskIds, taskId))]
                  [t := cols[t].(taskIds := InsertAt(cols[t].taskIds, toIndex, taskId))];
    assert multiset(cols[f].taskIds)[taskId] == 1 by {
      ColumnOwned(cols, f);
      assert taskId in multiset(cols[f].taskIds);
      assert Owned(cols)[taskId] <= 1;
    }
    assert Owned(rc) == Owned(cols) by {
      OwnedTransfer(cols, f, t, taskId, toIndex);
    }
    assert forall k :: 0 <= k < |rc| ==> rc[k].id == cols[k].id;
    ShrunkColumnsConsistent(b, rc);
  }

  /** Taking a once-listed id out of one column and inserting it into another keeps the owned ids. */
  lemma OwnedTransfer(cols: seq<Column>, f: nat, t: nat, x: TaskId, toIndex: int)
    requires f < |cols| && t < |cols| && f != t
    requires multiset(cols[f].taskIds)[x] == 1
    ensures var r := cols[f := cols[f].(taskIds := Without(cols[f].taskIds, x))]
                         [t := cols[t].(taskIds := InsertAt(cols[t].taskIds, toIndex, x))];
      Owned(r) == Owned(cols)
  {
    var fromC := cols[f].(taskIds := Without(cols[f].taskIds, x));
    var toC := cols[t].(taskIds := InsertAt(cols[t].taskIds, toIndex, x));
    var mid := cols[f := fromC];
    var r := mid[t := toC];
    assert mid[t] == cols[t];
    forall y ensures Owned(r)[y] == Owned(cols)[y] {
      OwnedUpdateAt(cols, f, fromC, y);
      OwnedUpdateAt(mid, t, toC, y);
    }
  }

  /** The columns moveTask produces between two different columns: two entries replaced. */
  lemma MoveTaskShape(b: BoardState, taskId: TaskId, toColumnId: ColumnId, toIndex: int, f: nat, t: nat)
    requires UniqueColumnIds(b.columns)
    requires FindOwner(b.columns, taskId) == Some(f) && FindColumn(b.columns, toColumnId) == Some(t)
    requires b.columns[f].id != toColumnId
    ensures f != t
    ensures MoveTask(b, taskId, toColumnId, toIndex) == b.(columns := b.columns
      [f := b.columns[f].(taskIds := Without(b.columns[f].taskIds, taskId))]
      [t := b.columns[t].(taskIds := InsertAt(b.columns[t].taskIds, toIndex, taskId))])
  {
    var cols := b.columns;
    var fromIds := Without(cols[f].taskIds, taskId);
    var toIds := InsertAt(cols[t].taskIds, toIndex, taskId);
    var r := MoveTask(b, taskId, toColumnId, toIndex);
    var expected := cols[f := cols[f].(taskIds := fromIds)][t := cols[t].(taskIds := toIds)];
    assert r.columns == seq(|cols|, k requires 0 <= k < |cols| =>
        if cols[k].id == cols[f].id then cols[k].(taskIds := fromIds)
        else if cols[k].id == cols[t].id then cols[k].(taskIds := toIds)
        else cols[k]);
    forall k | 0 <= k < |cols| ensures r.columns[k] == expected[k] {
      if k != f && k != t {
        assert cols[k].id != cols[f].id && cols[k].id != cols[t].id;
      }
    }
  }

  /**
   * The store's unsafe case: moveTask into the column the task already sits
   * in filters the id out and never inserts it, because the source-column
   * branch of the `map` wins. The task stays in `tasks`, owned by no column.
   */
  lemma MoveTaskWithinOwnColumnOrphans(b: BoardState, taskId: TaskId, toIndex: int, f: nat)
    requires Consistent(b)
    requires FindOwner(b.columns, taskId) == Some(f)
    ensures var r := MoveTask(b, taskId, b.columns[f].id, toIndex);
      && r.tasks == b.tasks
      && taskId in r.tasks
      && taskId !in Owned(r.columns)
      && Owned(r.columns) == Owned(b.columns)[taskId := 0]
      && Consistent(r)
  {
    MoveTaskSameColumnShape(b, taskId, toIndex, f);
    StripOwnerConsistent(b, f, taskId);
  }

  /** Filtering an owned id out of its column keeps a consistent board consistent and orphans the task. */
  lemma StripOwnerConsistent(b: BoardState, f: nat, taskId: TaskId)
    requires Consistent(b)
    requires f < |b.columns| && taskId in b.columns[f].taskIds
    ensures var rc := b.columns[f := b.columns[f].(taskIds := Without(b.columns[f].taskIds, taskId))];
      && Owned(rc) == Owned(b.columns)[taskId := 0]
      && Consistent(b.(columns := rc))
      && taskId in b.tasks
  {
    var cols := b.columns;
    var rc := cols[f := cols[f].(taskIds := Without(cols[f].taskIds, taskId))];
    assert Owned(rc) == Owned(cols)[taskId := 0] by {
      StripOwnerColumn(cols, f, taskId);
    }
    assert Consistent(b.(columns := rc)) by {
      assert Owned(rc) <= Owned(cols);
      assert forall k :: 0 <= k < |rc| ==> rc[k].id == cols[k].id;
      ShrunkColumnsConsistent(b, rc);
    }
    assert taskId in b.tasks by {
      ColumnOwned(cols, f);
      assert taskId in multiset(cols[f].taskIds);
    }
  }

  /** Filtering an id out of the one column that holds it removes it from the owned ids. */
  lemma StripOwnerColumn(cols: seq<Column>, f: nat, taskId: TaskId)
    requires ExclusiveOwnership(cols)
    requires f < |cols| && taskId in cols[f].taskIds
    ensures Owned(cols[f := cols[f].(taskIds := Without(cols[f].taskIds, taskId))]) == Owned(cols)[taskId := 0]
  {
    var fromC := cols[f].(taskIds := Without(cols[f].taskIds, taskId));
    var rc := cols[f := fromC];
    assert taskId in multiset(cols[f].taskIds);
    forall y ensures Owned(rc)[y] == Owned(cols)[taskId := 0][y] {
      OwnedUpdateAt(cols, f, fromC, y);
      assert Owned(cols)[y] <= 1;
    }
  }

  /** Columns with the same ids, in the same order, and fewer owned ids keep a consistent board consistent. */
  lemma ShrunkColumnsConsistent(b: BoardState, cols: seq<Column>)
    requires Consistent(b)
    requires |cols| == |b.columns| && forall k :: 0 <= k < |cols| ==> cols[k].id == b.columns[k].id
    requires Owned(cols) <= Owned(b.columns)
    ensures Consistent(b.(columns := cols))
  {
    forall x ensures Owned(cols)[x] <= 1 {
      assert Owned(cols)[x] <= Owned(b.columns)[x];
    }
  }

  /** The columns moveTask produces when the target is the task's own column: only the filtered source. */
  lemma MoveTaskSameColumnShape(b: BoardState, taskId: TaskId, toIndex: int, f: nat)
    requires UniqueColumnIds(b.columns)
    requires FindOwner(b.columns, taskId) == Some(f)
    ensures MoveTask(b, taskId, b.columns[f].id, toIndex)
      == b.(columns := b.columns[f := b.columns[f].(taskIds := Without(b.columns[f].taskIds, taskId))])
  {
    assert FindColumn(b.columns, b.columns[f].id) == Some(f);
  }

  /**
   * reorderTaskWithinColumn permutes the column's ids, the moved id lands at
   * the (clamped) target index and the others keep their order; the tasks and
   * every other column stay as they were.
   */
  lemma ReorderTaskEffect(b: BoardState, columnId: ColumnId, fromIndex: int, toIndex: int, i: nat)
    requires Consistent(b)
    requires FindColumn(b.columns, columnId) == Some(i)
    requires 0 <= fromIndex < |b.columns[i].taskIds|
    ensures var r := ReorderTaskWithinColumn(b, columnId, fromIndex, toIndex);
      var ids := b.columns[i].taskIds;
      var newIds := r.columns[i].taskIds;
      && r.tasks == b.tasks
      && |r.columns| == |b.columns|
      && (forall k :: 0 <= k < |b.columns| && k != i ==> r.columns[k] == b.columns[k])
      && r.columns[i].id == columnId && r.columns[i].title == b.columns[i].title
      && |newIds| == |ids| && multiset(newIds) == multiset(ids)
      && newIds[SpliceStart(toIndex, |ids| - 1)] == ids[fromIndex]
      && (0 <= toIndex < |ids| ==> newIds[toIndex] == ids[fromIndex])
      && RemoveAt(newIds, SpliceStart(toIndex, |ids| - 1)) == RemoveAt(ids, fromIndex)
      && Owned(r.columns) == Owned(b.columns)
      && Consistent(r)
  {
    var cols := b.columns;
    var next := MoveItem(cols[i].taskIds, fromIndex, toIndex);
    var c := cols[i].(taskIds := next);
    ReorderTaskShape(b, columnId, fromIndex, toIndex, i);
    OwnedSameMultiset(cols, i, c);
    MoveItemKeepsOthers(cols[i].taskIds, fromIndex, toIndex);
    ShrunkColumnsConsistent(b, cols[i := c]);
  }

  lemma ReorderTaskShape(b: BoardState, columnId: ColumnId, fromIndex: int, toIndex: int, i: nat)
    requires UniqueColumnIds(b.columns)
    requires FindColumn(b.columns, columnId) == Some(i)
    requires 0 <= fromIndex < |b.columns[i].taskIds|
    ensures ReorderTaskWithinColumn(b, columnId, fromIndex, toIndex)
      == b.(columns := b.columns[i := b.columns[i].(taskIds := MoveItem(b.columns[i].taskIds, fromIndex, toIndex))])
  {
    var next := MoveItem(b.columns[i].taskIds, fromIndex, toIndex);
    UpdateWhereUnique(b.columns, columnId, (c: Column) => c.(taskIds := next), i);
  }

  /** Replacing a column by one listing the same ids in another order keeps the owned ids. */
  lemma OwnedSameMultiset(cols: seq<Column>, i: nat, c: Column)
    requires i < |cols| && multiset(c.taskIds) == multiset(cols[i].taskIds)
    ensures Owned(cols[i := c]) == Owned(cols)
  {
    OwnedUpdate(cols, i, c);
    forall y ensures Owned(cols[i := c])[y] == Owned(cols)[y] {
      assert Owned(cols[i := c])[y] + multiset(cols[i].taskIds)[y] == Owned(cols)[y] + multiset(c.taskIds)[y];
    }
  }

  lemma OwnedInsert(cols: seq<Column>, start: int, c: Column)
    ensures Owned(InsertAt(cols, start, c)) == Owned(cols) + multiset(c.taskIds)
  {
    var k := SpliceStart(start, |cols|);
    var pre, post := cols[..k], cols[k..];
    assert InsertAt(cols, start, c) == pre + ([c] + post);
    OwnedConcat(pre, [c] + post);
    OwnedCons(c, post);
    assert cols == pre + post;
    OwnedConcat(pre, post);
  }

  lemma OwnedMoveItem(cols: seq<Column>, from: nat, to: int)
    requires from < |cols|
    ensures Owned(MoveItem(cols, from, to)) == Owned(cols)
  {
    var t := RemoveAt(cols, from);
    var r := MoveItem(cols, from, to);
    assert r == InsertAt(t, to, cols[from]);
    OwnedRemove(cols, from);
    OwnedInsert(t, to, cols[from]);
  }

  lemma UniqueAfterMoveItem(cols: seq<Column>, from: nat, to: int)
    requires UniqueColumnIds(cols) && from < |cols|
    ensures UniqueColumnIds(MoveItem(cols, from, to))
  {
    var r := MoveItem(cols, from, to);
    var k := SpliceStart(to, |cols| - 1);
    forall a, c | 0 <= a < c < |r| ensures r[a].id != r[c].id {
      var sa, sc := MoveSource(a, from, k), MoveSource(c, from, k);
      assert sa != sc && sa < |cols| && sc < |cols|;
      assert r[a] == cols[sa] && r[c] == cols[sc];
    }
  }

  /**
   * reorderColumns permutes the columns, the moved column lands at the
   * (clamped) target index and the others keep their order; tasks and the
   * owned ids are unchanged and the board stays consistent.
   */
  lemma ReorderColumnsEffect(b: BoardState, fromIndex: int, toIndex: int)
    requires Consistent(b)
    requires 0 <= fromIndex < |b.columns|
    ensures var r := ReorderColumns(b, fromIndex, toIndex);
      && r.tasks == b.tasks
      && multiset(r.columns) == multiset(b.columns)
      && (0 <= toIndex < |b.columns| ==> r.columns[toIndex] == b.columns[fromIndex])
      && RemoveAt(r.columns, SpliceStart(toIndex, |b.columns| - 1)) == RemoveAt(b.columns, fromIndex)
      && Owned(r.columns) == Owned(b.columns)
      && Consistent(r)
  {
    OwnedMoveItem(b.columns, fromIndex, toIndex);
    UniqueAfterMoveItem(b.columns, fromIndex, toIndex);
    MoveItemKeepsOthers(b.columns, fromIndex, toIndex);
  }

  /**
   * addColumn appends one empty column with the trimmed title; the existing
   * columns and the tasks are unchanged, and a fresh id keeps the board
   * consistent.
   */
  lemma AddColumnEffect(b: BoardState, title: string, id: ColumnId)
    requires Consistent(b)
    requires FindColumn(b.columns, id).None?
    ensures var r := AddColumn(b, title, id);
      && r.tasks == b.tasks
      && |r.columns| == |b.columns| + 1
      && r.columns[..|b.columns|] == b.columns
      && r.columns[|b.columns|] == Column(id, Trim(title), [])
      && Owned(r.columns) == Owned(b.columns)
      && Consistent(r)
  {
    AddColumnOwned(b, title, id);
    AddColumnConsistent(b, title, id);
  }

  lemma AddColumnOwned(b: BoardState, title: string, id: ColumnId)
    ensures Owned(AddColumn(b, title, id).columns) == Owned(b.columns)
  {
    OwnedAppendEmpty(b.columns, Column(id, Trim(title), []));
  }

  /** A column listing no ids adds nothing to the owned ids. */
  lemma OwnedAppendEmpty(cols: seq<Column>, c: Column)
    requires c.taskIds == []
    ensures Owned(cols + [c]) == Owned(cols)
  {
    OwnedConcat(cols, [c]);
    assert Owned([c]) == multiset{} by {
      assert [c][1..] == [];
    }
  }

  lemma AddColumnConsistent(b: BoardState, title: string, id: ColumnId)
    requires Consistent(b)
    requires FindColumn(b.columns, id).None?
    ensures Consistent(AddColumn(b, title, id))
  {
    AppendColumnConsistent(b, Column(id, Trim(title), []));
  }

  /** Appending a column that lists no ids, under an id no column has, keeps a consistent board consistent. */
  lemma AppendColumnConsistent(b: BoardState, c: Column)
    requires Consistent(b)
    requires c.taskIds == [] && forall k :: 0 <= k < |b.columns| ==> b.columns[k].id != c.id
    ensures Consistent(b.(columns := b.columns + [c]))
  {
    var cols := b.columns + [c];
    OwnedAppendEmpty(b.columns, c);
    assert UniqueColumnIds(cols) by {
      assert forall k :: 0 <= k < |b.columns| ==> cols[k] == b.columns[k];
    }
    assert Consistent(BoardState(cols, b.tasks));
  }

  /**
   * renameColumn gives the matching column the trimmed title and changes
   * nothing else; when that title is already the current one, every column
   * is left exactly as it was.
   */
  lemma RenameColumnEffect(b: BoardState, columnId: ColumnId, title: string)
    ensures var r := RenameColumn(b, columnId, title);
      && r.tasks == b.tasks
      && |r.columns| == |b.columns|
      && (forall k :: 0 <= k < |b.columns| ==>
            && r.columns[k].id == b.columns[k].id
            && r.columns[k].taskIds == b.columns[k].taskIds
            && r.columns[k].title == if b.columns[k].id == columnId then Trim(title) else b.columns[k].title)
      && ((forall k :: 0 <= k < |b.columns| && b.columns[k].id == columnId ==> b.columns[k].title == Trim(title))
          ==> r == b)
      && (Consistent(b) ==> Consistent(r))
  {
    if Consistent(b) {
      SameShapeConsistent(b, RenameColumn(b, columnId, title).columns);
    }
  }

  /** Columns with the same ids and the same task ids, in order, as a consistent board's are consistent with its tasks. */
  lemma SameShapeConsistent(b: BoardState, cols: seq<Column>)
    requires Consistent(b) && |cols| == |b.columns|
    requires forall k :: 0 <= k < |cols| ==> cols[k].id == b.columns[k].id && cols[k].taskIds == b.columns[k].taskIds
    ensures Consistent(BoardState(cols, b.tasks))
  {
    OwnedSameIds(b.columns, cols);
  }

  /** Lookup by id only sees the ids: two column lists with the same ids, in order, find the same index. */
  lemma {:induction false} FindColumnSameIds(a: seq<Column>, c: seq<Column>, id: ColumnId)
    requires |a| == |c|
    requires forall k :: 0 <= k < |a| ==> a[k].id == c[k].id
    ensures FindColumn(a, id) == FindColumn(c, id)
  {
    if a != [] && a[0].id != id {
      FindColumnSameIds(a[1..], c[1..], id);
    }
  }

  lemma {:induction false} OwnedSameIds(a: seq<Column>, c: seq<Column>)
    requires |a| == |c|
    requires forall k :: 0 <= k < |a| ==> a[k].taskIds == c[k].taskIds
    ensures Owned(a) == Owned(c)
  {
    if a != [] {
      OwnedSameIds(a[1..], c[1..]);
    }
  }

  /**
   * deleteColumn removes exactly that column and every task it listed (the
   * cascade); other columns keep their order and contents, other tasks are
   * unchanged, and the board stays consistent. An unknown id changes nothing.
   */
  lemma DeleteColumnEffect(b: BoardState, columnId: ColumnId)
    requires Consistent(b)
    ensures var r := DeleteColumn(b, columnId);
      && (FindColumn(b.columns, columnId).None? ==> r == b)
      && (FindColumn(b.columns, columnId).Some? ==>
            var i := FindColumn(b.columns, columnId).value;
            && r.columns == RemoveAt(b.columns, i)
            && (forall x :: x in b.columns[i].taskIds ==> x !in r.tasks)
            && (forall x :: x in b.tasks && x !in b.columns[i].taskIds ==> x in r.tasks && r.tasks[x] == b.tasks[x])
            && Owned(r.columns) == Owned(b.columns) - multiset(b.columns[i].taskIds))
      && Consistent(r)
    ensures FindColumn(b.columns, columnId).Some? ==>
      DeleteColumn(b, columnId).tasks.Keys == b.tasks.Keys - IdSet(b.columns[FindColumn(b.columns, columnId).value].taskIds)
  {
    match FindColumn(b.columns, columnId)
    case None =>
    case Some(i) =>
      WithoutColumnUnique(b.columns, columnId, i);
      CascadeConsistent(b, i);
  }

  /** Removing a column of a consistent board together with the tasks it lists leaves a consistent board. */
  lemma CascadeConsistent(b: BoardState, i: nat)
    requires Consistent(b) && i < |b.columns|
    ensures var cols := RemoveAt(b.columns, i);
      && Owned(cols) == Owned(b.columns) - multiset(b.columns[i].taskIds)
      && Consistent(BoardState(cols, b.tasks - IdSet(b.columns[i].taskIds)))
  {
    var cols := RemoveAt(b.columns, i);
    OwnedRemove(b.columns, i);
    UniqueAfterRemove(b.columns, i);
    ColumnOwned(b.columns, i);
    forall x | x in Owned(cols) ensures x in b.tasks && x !in IdSet(b.columns[i].taskIds) {
      assert (Owned(cols) + multiset(b.columns[i].taskIds))[x] == Owned(b.columns)[x];
      assert Owned(b.columns)[x] <= 1;
      assert multiset(b.columns[i].taskIds)[x] == 0;
    }
  }

  /** resetDemo's target is a consistent board: three empty columns, no tasks. */
  lemma ResetConsistent()
    ensures Consistent(Initial()) && Owned(Initial().columns) == multiset{}
  {
    InitialConsistent();
    var cols := Initial().columns;
    assert cols[1..][1..][1..] == [];
  }
}
