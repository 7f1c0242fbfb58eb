/**
 * The shapes of the update objects the long-poll endpoint returns, reduced to
 * the fields the ingestion step reads. Every field the wire format may omit is
 * an `Option`; an object that is present is truthy in the source, so a
 * present object is `Some`.
 */
module Updates {
  import opened Wrappers

  /** The `from` object of a message: only `first_name` is read. */
  datatype User = User(firstName: Option<string>)

  /** A chat object, used both as `chat` (its `id`) and as `sender_chat` (its `title`). */
  datatype Chat = Chat(id: int, title: Option<string>)

  /** A message payload; `date` is in epoch seconds. */
  datatype Payload = Payload(
    from: Option<User>,
    senderChat: Option<Chat>,
    chat: Option<Chat>,
    text: Option<string>,
    date: int)

  /** One update: its id and the three payload variants the ingestion step looks at. */
  datatype Update = Update(
    updateId: int,
    message: Option<Payload>,
    channelPost: Option<Payload>,
    editedMessage: Option<Payload>)

  /** JavaScript truthiness of a string field: present and not the empty string. */
  predicate Truthy(s: Option<string>)
  {
    s.Some? && s.value != ""
  }
}
