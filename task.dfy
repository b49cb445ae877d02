/** The task record that the server stores and the client caches. */
module Tasks {

  datatype Option<T> = None | Some(value: T)

  /** One row of the task table, as `to_dict` hands it to the client.
      `dueDate`, `createdAt` and `updatedAt` are instants in milliseconds
      since the epoch; ISO-8601 text and time zones are not modelled. */
  datatype Task = Task(
    id: int,
    title: string,
    description: string,
    priority: string,
    dueDate: Option<int>,
    completed: bool,
    createdAt: int,
    updatedAt: int)

  /** The three priorities the server accepts. */
  predicate IsPriority(p: string) {
    p == "low" || p == "medium" || p == "high"
  }

  const DefaultPriority: string := "medium"
}
