/** The chat client's value types (the shapes declared in frontend/src/types.ts). */
module Types {

  datatype Option<+T> = None | Some(value: T)

  /** `Message.type`. */
  datatype Role = Human | Ai | System

  /** A chat transcript entry. The `timestamp` the client attaches is not modelled. */
  datatype Message = Message(id: string, role: Role, content: string)

  /** One activity-timeline entry (`ProcessedEvent`); every producer in the
      client sets `data` to a string. */
  datatype ProcessedEvent = ProcessedEvent(title: string, data: string)

  datatype EffortLevel = Low | Medium | High

  /** Number of initial search queries and maximum number of research loops. */
  datatype EffortConfig = EffortConfig(queries: nat, loops: nat)
}
