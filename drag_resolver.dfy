/**
 * The board's drag-end resolver (src/components/Board.tsx): it turns the
 * item being dragged and the item it was dropped on into at most one store
 * action. Its guards keep every action it issues within the store's safe
 * cases: a task is never moved into the column it already sits in, and the
 * indices it passes are positions that exist.
 */
module DragResolver {
  import opened Wrappers
  import opened Types
  import opened SeqOps
  import opened BoardActions

  /** The `type` a draggable or droppable carries in its data; `OtherItem` for none or any other. */
  datatype ItemKind = ColumnItem | TaskItem | OtherItem

  datatype DragItem = DragItem(id: string, kind: ItemKind)

  /** The store call the resolver makes. */
  datatype DragAction =
    | MoveTo(taskId: TaskId, toColumnId: ColumnId, index: int)
    | ReorderWithin(columnId: ColumnId, fromIndex: nat, toIndex: nat)
    | ReorderCols(fromCol: nat, toCol: nat)

  /** `onDragEnd({ active, over })`: the action it issues, if any. */
  function OnDragEnd(cols: seq<Column>, active: DragItem, over: Option<DragItem>): (r: Option<DragAction>)
    ensures over.None? ==> r.None?
    ensures r.Some? && r.value.ReorderCols? ==>
      && active.kind == ColumnItem && over.Some? && over.value.kind == ColumnItem
      && r.value.fromCol < |cols| && r.value.toCol < |cols| && r.value.fromCol != r.value.toCol
      && cols[r.value.fromCol].id == active.id && cols[r.value.toCol].id == over.value.id
    ensures r.Some? && r.value.MoveTo? ==>
      && active.kind == TaskItem && r.value.taskId == active.id
      && FindOwner(cols, active.id).Some?
      && cols[FindOwner(cols, active.id).value].id != r.value.toColumnId
    ensures r.Some? && r.value.MoveTo? && over.value.kind == ColumnItem ==>
      && r.value.toColumnId == over.value.id
      && r.value.index == match FindColumn(cols, over.value.id)
           case Some(t) => |cols[t].taskIds|
           case None => 0
    ensures r.Some? && r.value.MoveTo? && over.value.kind != ColumnItem ==>
      && over.value.kind == TaskItem && FindOwner(cols, over.value.id).Some?
      && var g := FindOwner(cols, over.value.id).value;
      && r.value.toColumnId == cols[g].id
      && r.value.index == IndexOf(cols[g].taskIds, over.value.id)
    ensures over.Some? && over.value.kind == TaskItem && FindOwner(cols, over.value.id).None? ==> r.None?
    ensures r.Some? && r.value.ReorderWithin? ==>
      && active.kind == TaskItem && over.Some? && over.value.kind == TaskItem
      && FindOwner(cols, active.id).Some?
      && var s := FindOwner(cols, active.id).value;
      && r.value.columnId == cols[s].id
      && r.value.fromIndex < |cols[s].taskIds| && cols[s].taskIds[r.value.fromIndex] == active.id
      && r.value.fromIndex != r.value.toIndex
      && (UniqueColumnIds(cols) ==>
            && FindColumn(cols, r.value.columnId) == Some(s)
            && r.value.toIndex < |cols[s].taskIds| && cols[s].taskIds[r.value.toIndex] == over.value.id)
  {
    if over.None? then None
    else
      var o := over.value;
      if active.kind == ColumnItem && o.kind == ColumnItem then
        match (FindColumn(cols, active.id), FindColumn(cols, o.id))
        case (Some(f), Some(t)) => if f != t then Some(ReorderCols(f, t)) else None
        case _ => None
      else if active.kind != TaskItem then None
      else match FindOwner(cols, active.id)
        case None => None
        case Some(s) =>
          var source := cols[s];
          if o.kind == ColumnItem then
            if o.id == source.id then None
            else
              var toIndex := match FindColumn(cols, o.id)
                case Some(t) => |cols[t].taskIds|
                case None => 0;
              Some(MoveTo(active.id, o.id, toIndex))
          else if o.kind == TaskItem then
            match FindOwner(cols, o.id)
            case None => None
            case Some(g) =>
              var target := cols[g];
              var fromIndex := IndexOf(source.taskIds, active.id);
              var toIndex := IndexOf(target.taskIds, o.id);
              if target.id == source.id then
                assert UniqueColumnIds(cols) ==> g == s;
                if fromIndex != -1 && toIndex != -1 && fromIndex != toIndex then
                  Some(ReorderWithin(source.id, fromIndex, toIndex))
                else None
              else Some(MoveTo(active.id, target.id, toIndex))
          else None
  }

  /** The board after the store runs the action the resolver issued for a drop. */
  function HandleDragEnd(b: BoardState, active: DragItem, over: Option<DragItem>): (r: BoardState)
    requires UniqueColumnIds(b.columns)
    ensures OnDragEnd(b.columns, active, over).None? ==> r == b
  {
    match OnDragEnd(b.columns, active, over)
    case None => b
    case Some(MoveTo(x, c, k)) => MoveTask(b, x, c, k)
    case Some(ReorderWithin(c, f, t)) => ReorderTaskWithinColumn(b, c, f, t)
    case Some(ReorderCols(f, t)) => ReorderColumns(b, f, t)
  }

  /** Every drop keeps the board consistent, keeps every task, and keeps the set of owned ids. */
  lemma DragEndKeepsBoard(b: BoardState, active: DragItem, over: Option<DragItem>)
    requires Consistent(b)
    ensures var r := HandleDragEnd(b, active, over);
      Consistent(r) && r.tasks == b.tasks && Owned(r.columns) == Owned(b.columns)
  {
    match OnDragEnd(b.columns, active, over)
    case None =>
    case Some(MoveTo(x, c, k)) =>
      var f := FindOwner(b.columns, x).value;
      match FindColumn(b.columns, c) {
        case None =>
          MoveTaskNoOp(b, x, c, k);
        case Some(t) =>
          MoveTaskBetweenColumns(b, x, c, k, f, t);
      }
    case Some(ReorderWithin(c, f, t)) =>
      ReorderTaskEffect(b, c, f, t, FindColumn(b.columns, c).value);
    case Some(ReorderCols(f, t)) =>
      ReorderColumnsEffect(b, f, t);
  }

  /** Dropping a task on another column appends it to that column. */
  lemma DropOnColumnAppends(b: BoardState, taskId: TaskId, columnId: ColumnId, f: nat, t: nat)
    requires Consistent(b)
    requires FindOwner(b.columns, taskId) == Some(f) && b.columns[f].id != columnId
    requires FindColumn(b.columns, columnId) == Some(t)
    ensures var r := HandleDragEnd(b, DragItem(taskId, TaskItem), Some(DragItem(columnId, ColumnItem)));
      && r.columns[t].taskIds == b.columns[t].taskIds + [taskId]
      && r.columns[f].taskIds == Without(b.columns[f].taskIds, taskId)
      && r.tasks == b.tasks
  {
    var ids := b.columns[t].taskIds;
    assert OnDragEnd(b.columns, DragItem(taskId, TaskItem), Some(DragItem(columnId, ColumnItem)))
      == Some(MoveTo(taskId, columnId, |ids|));
    MoveTaskBetweenColumns(b, taskId, columnId, |ids|, f, t);
    var r := MoveTask(b, taskId, columnId, |ids|);
    assert r.columns[t].taskIds == ids + [taskId] by {
      InsertAtEnd(ids, taskId);
    }
  }

  /**
   * Dropping a task on a task of another column inserts it at the target's
   * position, just before the target.
   */
  lemma DropOnTaskInserts(b: BoardState, taskId: TaskId, targetId: TaskId, f: nat, g: nat)
    requires Consistent(b)
    requires FindOwner(b.columns, taskId) == Some(f) && FindOwner(b.columns, targetId) == Some(g)
    requires b.columns[f].id != b.columns[g].id
    ensures var r := HandleDragEnd(b, DragItem(taskId, TaskItem), Some(DragItem(targetId, TaskItem)));
      var j := IndexOf(b.columns[g].taskIds, targetId);
      && 0 <= j && j + 1 < |r.columns[g].taskIds|
      && r.columns[g].taskIds[j] == taskId && r.columns[g].taskIds[j + 1] == targetId
      && r.tasks == b.tasks
  {
    var ids := b.columns[g].taskIds;
    var j := IndexOf(ids, targetId);
    assert FindColumn(b.columns, b.columns[g].id) == Some(g);
    assert OnDragEnd(b.columns, DragItem(taskId, TaskItem), Some(DragItem(targetId, TaskItem)))
      == Some(MoveTo(taskId, b.columns[g].id, j));
    MoveTaskBetweenColumns(b, taskId, b.columns[g].id, j, f, g);
  }

  /** Dropping a task on another task of its own column puts it at the target's former position. */
  lemma DropWithinColumnLands(b: BoardState, taskId: TaskId, targetId: TaskId, f: nat)
    requires Consistent(b)
    requires FindOwner(b.columns, taskId) == Some(f) && FindOwner(b.columns, targetId) == Some(f)
    requires taskId != targetId
    ensures var r := HandleDragEnd(b, DragItem(taskId, TaskItem), Some(DragItem(targetId, TaskItem)));
      var j := IndexOf(b.columns[f].taskIds, targetId);
      && 0 <= j < |r.columns[f].taskIds| && r.columns[f].taskIds[j] == taskId
      && multiset(r.columns[f].taskIds) == multiset(b.columns[f].taskIds)
      && r.tasks == b.tasks
  {
    var ids := b.columns[f].taskIds;
    var from := IndexOf(ids, taskId);
    var j := IndexOf(ids, targetId);
    assert from != j by {
      assert ids[from] == taskId && ids[j] == targetId;
    }
    var c := b.columns[f].id;
    assert OnDragEnd(b.columns, DragItem(taskId, TaskItem), Some(DragItem(targetId, TaskItem)))
      == Some(ReorderWithin(c, from, j));
    assert FindColumn(b.columns, c) == Some(f);
    ReorderTaskEffect(b, c, from, j, f);
  }

  /** Dropping a column on another column puts it at that column's former position. */
  lemma DropColumnLands(b: BoardState, fromId: ColumnId, toId: ColumnId, f: nat, t: nat)
    requires Consistent(b)
    requires FindColumn(b.columns, fromId) == Some(f) && FindColumn(b.columns, toId) == Some(t) && f != t
    ensures var r := HandleDragEnd(b, DragItem(fromId, ColumnItem), Some(DragItem(toId, ColumnItem)));
      && r.columns[t] == b.columns[f]
      && multiset(r.columns) == multiset(b.columns)
      && r.tasks == b.tasks
  {
    ReorderColumnsEffect(b, f, t);
  }

  /** One drop: the dragged item and where it was dropped. */
  datatype DragEnd = DragEnd(active: DragItem, over: Option<DragItem>)

  /** The board after a sequence of drops, each resolved and applied in turn. */
  function ApplyDrags(b: BoardState, drags: seq<DragEnd>): (r: BoardState)
    requires Consistent(b)
    ensures Consistent(r) && r.tasks == b.tasks && Owned(r.columns) == Owned(b.columns)
    decreases |drags|
  {
    if drags == [] then b
    else
      DragEndKeepsBoard(b, drags[0].active, drags[0].over);
      ApplyDrags(HandleDragEnd(b, drags[0].active, drags[0].over), drags[1..])
  }
}
