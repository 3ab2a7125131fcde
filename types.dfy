/** The board's data shapes: tasks, columns, and the board state the store holds. */
module Types {
  import opened Wrappers

  type TaskId = string
  type ColumnId = string

  /** Milliseconds since the epoch, as `Date.now()` returns them. */
  type Timestamp = int

  datatype Task = Task(
    id: TaskId,
    title: string,
    description: Option<string>,
    createdAt: Timestamp,
    updatedAt: Timestamp)

  /** A column owns an ordered list of task ids. */
  datatype Column = Column(id: ColumnId, title: string, taskIds: seq<TaskId>)

  datatype BoardState = BoardState(columns: seq<Column>, tasks: map<TaskId, Task>)

  datatype NewTaskInput = NewTaskInput(title: string, description: Option<string>)

  datatype EditTaskInput = EditTaskInput(id: TaskId, title: string, description: Option<string>)
}
