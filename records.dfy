/** The records exchanged with the messaging API and between the two halves of
    the pipeline. The API returns untyped JSON objects; every field the code
    reads with `.get(...)` is an `Option` here, `None` standing for a missing
    key. */
module Records {
  import opened Wrappers

  /** One message of a chat: `author_id`, `created` (UNIX seconds) and
      `content.text`. */
  datatype Message = Message(authorId: Option<int>, created: Option<int>, text: Option<string>)

  /** One entry of a chat's `users` roster: `id` and `name`. */
  datatype User = User(id: Option<int>, name: Option<string>)

  /** The chat metadata returned by the chat listing: its `id`, its `created`
      time, the account user id found at `context.value.user_id`, and the
      `users` roster. */
  datatype RawChat = RawChat(id: string, created: Option<int>, contextUserId: Option<int>, users: seq<User>)

  /** One stored entry of the collected `dialogs` map: the chat metadata
      (`chat_meta`) and the messages kept for it. */
  datatype ChatRecord = ChatRecord(meta: RawChat, messages: seq<Message>)
}
