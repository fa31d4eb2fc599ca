/** The persisted entities and the request records of the backend: users,
    tasks, time entries and the two task DTOs. The status and priority enums
    are the ones the client declares as well. */
module Entities {
  import opened Common

  datatype Status = Pending | InProgress | Completed
  datatype Priority = Low | Medium | High

  /** The string value of each enum member. */
  function StatusName(s: Status): string
  {
    match s
    case Pending => "pending"
    case InProgress => "in_progress"
    case Completed => "completed"
  }

  function PriorityName(p: Priority): string
  {
    match p
    case Low => "low"
    case Medium => "medium"
    case High => "high"
  }

  /** A stored user; `password` holds the hash, never the plaintext. */
  datatype User = User(id: string, email: string, password: string, name: string, createdAt: int)

  /** A stored task; times are milliseconds since the epoch. */
  datatype Task = Task(
    id: string,
    userId: string,
    title: string,
    description: Option<string>,
    status: Status,
    category: Option<string>,
    priority: Priority,
    createdAt: int,
    updatedAt: int)

  /** A stored time entry: `endTime` is null while the timer runs, `duration`
      is whole seconds (an int column with default 0). */
  datatype TimeEntry = TimeEntry(id: string, taskId: string, startTime: int, endTime: Option<int>, duration: int)

  predicate IsOpen(e: TimeEntry)
  {
    e.endTime.None?
  }

  /** The body of a create request: it has no status. */
  datatype CreateTaskDto = CreateTaskDto(
    title: string,
    description: Option<string>,
    category: Option<string>,
    priority: Option<Priority>)

  /** The body of an update request: every field is optional. */
  datatype UpdateTaskDto = UpdateTaskDto(
    title: Option<string>,
    description: Option<string>,
    status: Option<Status>,
    category: Option<string>,
    priority: Option<Priority>)

  /** The column defaults of the task entity, which are not part of this
      model and are therefore given to the store when it is built. */
  datatype TaskDefaults = TaskDefaults(status: Status, priority: Priority)
}
