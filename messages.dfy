/** Values shared by the browser client and the backend: the three message
    roles, a chat message, and an optional value standing for JavaScript's
    null/undefined and Python's None. */
module Messages {

  datatype Option<+T> = None | Some(value: T)

  /** The roles accepted by the backend's message model. */
  datatype Role = System | User | Assistant

  /** One entry of a conversation, `{role, content}`. */
  datatype Message = Message(role: Role, content: string)

  /** The system message every freshly created chat starts with. */
  const SystemGreeting: string := "You are a helpful assistant."
}
