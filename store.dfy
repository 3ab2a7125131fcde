/**
 * The board store (src/store.ts): one object holding the board state, with
 * one method per action. Each action that reaches `set` replaces `columns`,
 * `tasks` or both with new values; subscribers tell a change by comparing the
 * identity of those two values, so the store also keeps a reference id for
 * each of them, and every `set` gives the values it installs a fresh id.
 */
module Store {
  import opened Types
  import opened BoardActions

  /** The identity of a JavaScript array or object value. */
  type Ref = nat

  /** The identities of `initial.columns` and `initial.tasks`, shared by every reset. */
  const InitialColumnsRef: Ref := 0
  const InitialTasksRef: Ref := 1

  /** The store's state as a subscriber receives it: the board and the identity of its two parts. */
  datatype StoreSnapshot = StoreSnapshot(board: BoardState, columnsRef: Ref, tasksRef: Ref)

  /** From `prev` to `cur`, a part whose identity did not change did not change its content either. */
  predicate RefsTrack(prev: StoreSnapshot, cur: StoreSnapshot) {
    && (cur.columnsRef == prev.columnsRef ==> cur.board.columns == prev.board.columns)
    && (cur.tasksRef == prev.tasksRef ==> cur.board.tasks == prev.board.tasks)
  }

  class BoardStore {
    var state: BoardState
    var columnsRef: Ref
    var tasksRef: Ref
    /** The next unused reference id. */
    var nextRef: Ref

    /** Reference ids are allocated below `nextRef`, and the initial ids still name the initial values. */
    ghost predicate Valid()
      reads this
    {
      && nextRef >= 2 && columnsRef < nextRef && tasksRef < nextRef
      && (columnsRef == InitialColumnsRef ==> state.columns == Initial().columns)
      && (tasksRef == InitialTasksRef ==> state.tasks == Initial().tasks)
    }

    function Snapshot(): (s: StoreSnapshot)
      reads this
      ensures s.board == state && s.columnsRef == columnsRef && s.tasksRef == tasksRef
    {
      StoreSnapshot(state, columnsRef, tasksRef)
    }

    /** The store starts from `initial`. */
    constructor ()
      ensures Valid()
      ensures state == Initial() && columnsRef == InitialColumnsRef && tasksRef == InitialTasksRef
    {
      state := Initial();
      columnsRef, tasksRef := InitialColumnsRef, InitialTasksRef;
      nextRef := 2;
    }

    /** `set({ columns })`: installs a new columns array. */
    method SetColumns(columns: seq<Column>)
      requires Valid()
      modifies this
      ensures Valid()
      ensures state == old(state).(columns := columns)
      ensures columnsRef == old(nextRef) && tasksRef == old(tasksRef) && nextRef == old(nextRef) + 1
    {
      state := state.(columns := columns);
      columnsRef := nextRef;
      nextRef := nextRef + 1;
    }

    /** `set({ tasks })`: installs a new tasks object. */
    method SetTasks(tasks: map<TaskId, Task>)
      requires Valid()
      modifies this
      ensures Valid()
      ensures state == old(state).(tasks := tasks)
      ensures tasksRef == old(nextRef) && columnsRef == old(columnsRef) && nextRef == old(nextRef) + 1
    {
      state := state.(tasks := tasks);
      tasksRef := nextRef;
      nextRef := nextRef + 1;
    }

    /** `set({ tasks, columns })`: installs a new value for both. */
    method SetBoth(board: BoardState)
      requires Valid()
      modifies this
      ensures Valid()
      ensures state == board
      ensures columnsRef == old(nextRef) && tasksRef == old(nextRef) + 1 && nextRef == old(nextRef) + 2
    {
      state := board;
      columnsRef, tasksRef := nextRef, nextRef + 1;
      nextRef := nextRef + 2;
    }

    /**
     * `addTask(columnId, input)`. `id` is what the id generator returns (never
     * a key already in use) and `now` the clock reading.
     */
    method AddTask(columnId: ColumnId, input: NewTaskInput, id: TaskId, now: Timestamp) returns (notified: bool)
      requires Valid()
      requires id !in state.tasks
      modifies this
      ensures Valid() && RefsTrack(old(Snapshot()), Snapshot())
      ensures state == BoardActions.AddTask(old(state), columnId, input, id, now)
      ensures notified && columnsRef != old(columnsRef) && tasksRef != old(tasksRef)
      ensures Consistent(old(state)) ==> Consistent(state)
    {
      ghost var before := state;
      if Consistent(before) {
        AddTaskEffect(before, columnId, input, id, now);
      }
      SetBoth(BoardActions.AddTask(state, columnId, input, id, now));
      notified := true;
    }

    /** `editTask(input)` at time `now`; an unknown id returns before `set`. */
    method EditTask(input: EditTaskInput, now: Timestamp) returns (notified: bool)
      requires Valid()
      modifies this
      ensures Valid() && RefsTrack(old(Snapshot()), Snapshot())
      ensures state == BoardActions.EditTask(old(state), input, now)
      ensures notified == (input.id in old(state.tasks))
      ensures notified ==> columnsRef == old(columnsRef) && tasksRef != old(tasksRef)
      ensures !notified ==> Snapshot() == old(Snapshot())
      ensures Consistent(old(state)) ==> Consistent(state)
    {
      EditTaskEffect(state, input, now);
      if input.id !in state.tasks {
        notified := false;
        return;
      }
      SetTasks(BoardActions.EditTask(state, input, now).tasks);
      notified := true;
    }

    /** `deleteTask(taskId)`: always sets both parts, even for an unknown id. */
    method DeleteTask(taskId: TaskId) returns (notified: bool)
      requires Valid()
      modifies this
      ensures Valid() && RefsTrack(old(Snapshot()), Snapshot())
      ensures state == BoardActions.DeleteTask(old(state), taskId)
      ensures notified && columnsRef != old(columnsRef) && tasksRef != old(tasksRef)
      ensures Consistent(old(state)) ==> Consistent(state)
    {
      DeleteTaskEffect(state, taskId);
      SetBoth(BoardActions.DeleteTask(state, taskId));
      notified := true;
    }

    /** `moveTask(taskId, toColumnId, toIndex)`; returns before `set` when either column is not found. */
    method MoveTask(taskId: TaskId, toColumnId: ColumnId, toIndex: int) returns (notified: bool)
      requires Valid()
      modifies this
      ensures Valid() && RefsTrack(old(Snapshot()), Snapshot())
      ensures state == BoardActions.MoveTask(old(state), taskId, toColumnId, toIndex)
      ensures notified == (FindOwner(old(state.columns), taskId).Some? && FindColumn(old(state.columns), toColumnId).Some?)
      ensures notified ==> columnsRef != old(columnsRef) && tasksRef == old(tasksRef)
      ensures !notified ==> Snapshot() == old(Snapshot())
      ensures Consistent(old(state)) ==> Consistent(state) && state.tasks == old(state.tasks)
    {
      if FindOwner(state.columns, taskId).None? || FindColumn(state.columns, toColumnId).None? {
        notified := false;
        return;
      }
      if Consistent(state) {
        var f, t := FindOwner(state.columns, taskId).value, FindColumn(state.columns, toColumnId).value;
        if state.columns[f].id == toColumnId {
          MoveTaskWithinOwnColumnOrphans(state, taskId, toIndex, f);
        } else {
          MoveTaskBetweenColumns(state, taskId, toColumnId, toIndex, f, t);
        }
      }
      SetColumns(BoardActions.MoveTask(state, taskId, toColumnId, toIndex).columns);
      notified := true;
    }

    /** `reorderTaskWithinColumn(columnId, fromIndex, toIndex)`; an unknown column returns before `set`. */
    method ReorderTaskWithinColumn(columnId: ColumnId, fromIndex: int, toIndex: int) returns (notified: bool)
      requires Valid()
      requires TaskIndexInRange(state, columnId, fromIndex)
      modifies this
      ensures Valid() && RefsTrack(old(Snapshot()), Snapshot())
      ensures state == BoardActions.ReorderTaskWithinColumn(old(state), columnId, fromIndex, toIndex)
      ensures notified == FindColumn(old(state.columns), columnId).Some?
      ensures notified ==> columnsRef != old(columnsRef) && tasksRef == old(tasksRef)
      ensures !notified ==> Snapshot() == old(Snapshot())
      ensures Consistent(old(state)) ==> Consistent(state)
    {
      if FindColumn(state.columns, columnId).None? {
        notified := false;
        return;
      }
      if Consistent(state) {
        ReorderTaskEffect(state, columnId, fromIndex, toIndex, FindColumn(state.columns, columnId).value);
      }
      SetColumns(BoardActions.ReorderTaskWithinColumn(state, columnId, fromIndex, toIndex).columns);
      notified := true;
    }

    /** `reorderColumns(fromIndex, toIndex)`. */
    method ReorderColumns(fromIndex: int, toIndex: int) returns (notified: bool)
      requires Valid()
      requires 0 <= fromIndex < |state.columns|
      modifies this
      ensures Valid() && RefsTrack(old(Snapshot()), Snapshot())
      ensures state == BoardActions.ReorderColumns(old(state), fromIndex, toIndex)
      ensures notified && columnsRef != old(columnsRef) && tasksRef == old(tasksRef)
      ensures Consistent(old(state)) ==> Consistent(state)
    {
      if Consistent(state) {
        ReorderColumnsEffect(state, fromIndex, toIndex);
      }
      SetColumns(BoardActions.ReorderColumns(state, fromIndex, toIndex).columns);
      notified := true;
    }

    /** `addColumn(title)`; `id` is what the id generator returns (not an existing column id). */
    method AddColumn(title: string, id: ColumnId) returns (notified: bool)
      requires Valid()
      requires FindColumn(state.columns, id).None?
      modifies this
      ensures Valid() && RefsTrack(old(Snapshot()), Snapshot())
      ensures state == BoardActions.AddColumn(old(state), title, id)
      ensures notified && columnsRef != old(columnsRef) && tasksRef == old(tasksRef)
      ensures Consistent(old(state)) ==> Consistent(state)
    {
      if Consistent(state) {
        AddColumnEffect(state, title, id);
      }
      SetColumns(BoardActions.AddColumn(state, title, id).columns);
      notified := true;
    }

    /**
     * `renameColumn(columnId, title)`. The `map` always builds a new array and
     * `set` is always called, so the columns get a new identity even when no
     * title changes.
     */
    method RenameColumn(columnId: ColumnId, title: string) returns (notified: bool)
      requires Valid()
      modifies this
      ensures Valid() && RefsTrack(old(Snapshot()), Snapshot())
      ensures state == BoardActions.RenameColumn(old(state), columnId, title)
      ensures notified && columnsRef != old(columnsRef) && tasksRef == old(tasksRef)
      ensures Consistent(old(state)) ==> Consistent(state)
    {
      RenameColumnEffect(state, columnId, title);
      SetColumns(BoardActions.RenameColumn(state, columnId, title).columns);
      notified := true;
    }

    /**
     * `deleteColumn(columnId)`: copies the tasks, deletes each id the column
     * lists from the copy one at a time, then sets the filtered columns and the
     * copy. An unknown column returns before `set`.
     */
    method DeleteColumn(columnId: ColumnId) returns (notified: bool)
      requires Valid()
      modifies this
      ensures Valid() && RefsTrack(old(Snapshot()), Snapshot())
      ensures state == BoardActions.DeleteColumn(old(state), columnId)
      ensures notified == FindColumn(old(state.columns), columnId).Some?
      ensures notified ==> columnsRef != old(columnsRef) && tasksRef != old(tasksRef)
      ensures !notified ==> Snapshot() == old(Snapshot())
      ensures Consistent(old(state)) ==> Consistent(state)
    {
      if Consistent(state) {
        DeleteColumnEffect(state, columnId);
      }
      var found := FindColumn(state.columns, columnId);
      if found.None? {
        notified := false;
        return;
      }
      var ids := state.columns[found.value].taskIds;
      var tasks := state.tasks;
      for k := 0 to |ids|
        invariant tasks == state.tasks - IdSet(ids[..k])
      {
        assert IdSet(ids[..k + 1]) == IdSet(ids[..k]) + {ids[k]} by {
          assert ids[..k + 1] == ids[..k] + [ids[k]];
        }
        tasks := tasks - {ids[k]};
      }
      assert ids[..|ids|] == ids;
      SetBoth(BoardState(WithoutColumn(state.columns, columnId), tasks));
      notified := true;
    }

    /** `resetDemo()`: `set(initial)`, which reinstalls the very values `initial` holds. */
    method ResetDemo() returns (notified: bool)
      requires Valid()
      modifies this
      ensures Valid() && RefsTrack(old(Snapshot()), Snapshot())
      ensures state == Initial() && Consistent(state)
      ensures notified && columnsRef == InitialColumnsRef && tasksRef == InitialTasksRef
      ensures nextRef == old(nextRef)
    {
      ResetConsistent();
      state := Initial();
      columnsRef, tasksRef := InitialColumnsRef, InitialTasksRef;
      notified := true;
    }

    /**
     * `replaceBoardState(board)`, used by the initial restore: wholesale
     * replacement with no validation of the incoming board.
     */
    method ReplaceBoardState(board: BoardState) returns (notified: bool)
      requires Valid()
      modifies this
      ensures Valid() && RefsTrack(old(Snapshot()), Snapshot())
      ensures state == board
      ensures notified && columnsRef != old(columnsRef) && tasksRef != old(tasksRef)
    {
      SetBoth(board);
      notified := true;
    }
  }
}
