/** The chat documents the backend stores and returns (main.py): a document
    is a dictionary from field names to values. Only the fields the
    endpoints read or write are given a value type; the `_id` and timestamp
    conversions done for JSON output are not part of this model. */
module Records {
  import opened Messages

  datatype Field = Str(s: string) | MessageList(messages: seq<Message>) | Time(t: int)

  type ChatDoc = map<string, Field>

  /** The field set `create_chat` writes. */
  const NewChatFields: set<string> := {"id", "title", "messages", "user_id", "created_at", "updated_at"}

  /** The document `create_chat` inserts: its id, the requested title, the
      single system message, the owner and the two clock readings. */
  function NewChatRecord(chatId: string, title: string, userId: string, createdAt: int, updatedAt: int): (doc: ChatDoc)
    ensures doc.Keys == NewChatFields && "chat_id" !in doc
    ensures doc["id"] == Str(chatId) && doc["title"] == Str(title) && doc["user_id"] == Str(userId)
    ensures doc["messages"] == MessageList([Message(System, SystemGreeting)])
    ensures doc["created_at"] == Time(createdAt) && doc["updated_at"] == Time(updatedAt)
  {
    map["id" := Str(chatId), "title" := Str(title),
        "messages" := MessageList([Message(System, SystemGreeting)]),
        "user_id" := Str(userId), "created_at" := Time(createdAt), "updated_at" := Time(updatedAt)]
  }

  /** The backward-compatibility step of `get_chats` and `get_chat`: a
      document that carries `id` but no `chat_id` gains a `chat_id` equal to
      its `id`; every field it already had keeps its value. */
  function Backfill(chat: ChatDoc): (r: ChatDoc)
    ensures r.Keys == chat.Keys + (if "id" in chat then {"chat_id"} else {})
    ensures forall k :: k in chat ==> r[k] == chat[k]
    ensures "id" in chat && "chat_id" !in chat ==> r["chat_id"] == chat["id"]
  {
    if "id" in chat && "chat_id" !in chat then chat["chat_id" := chat["id"]] else chat
  }

  /** Backfilling twice is backfilling once. */
  lemma BackfillIdempotent(chat: ChatDoc)
    ensures Backfill(Backfill(chat)) == Backfill(chat)
  {
  }

  /** A chat created through the API is listed and fetched with `chat_id`
      equal to the id `create_chat` returned. */
  lemma CreatedChatIsBackfilled(chatId: string, title: string, userId: string, createdAt: int, updatedAt: int)
    ensures var doc := Backfill(NewChatRecord(chatId, title, userId, createdAt, updatedAt));
      "chat_id" in doc && doc["chat_id"] == Str(chatId) && doc["id"] == Str(chatId)
  {
  }

  /** The field `update_chat` filters on. */
  function KeyField(chat: ChatDoc): (f: string)
    ensures f == "id" || f == "chat_id"
    ensures f == "id" <==> "id" in chat
    ensures f == "chat_id" ==> "id" !in chat
  {
    if "id" in chat then "id" else "chat_id"
  }

  /** `$set` of `messages` and `updated_at`: the message list is replaced
      wholesale and every other field is kept. */
  function SetMessages(chat: ChatDoc, messages: seq<Message>, now: int): (r: ChatDoc)
    ensures r.Keys == chat.Keys + {"messages", "updated_at"}
    ensures r["messages"] == MessageList(messages) && r["updated_at"] == Time(now)
    ensures forall k :: k in chat && k != "messages" && k != "updated_at" ==> r[k] == chat[k]
  {
    chat["messages" := MessageList(messages)]["updated_at" := Time(now)]
  }

  /** Whether `chat` holds `value` under `field`. */
  predicate Holds(chat: ChatDoc, field: string, value: string) {
    field in chat && chat[field] == Str(value)
  }

  /** The filter of `get_chat` and `update_chat`: the chat is the user's and
      its `chat_id` or its `id` is the requested one. A matching chat is
      never another user's, and after the backfill it carries the requested
      id under `chat_id`, as `get_chat` answers it, and still matches. */
  predicate Matches(chat: ChatDoc, chatId: string, userId: string)
    ensures Matches(chat, chatId, userId) ==> OwnedBy(chat, userId)
    ensures Matches(chat, chatId, userId) ==>
      (Holds(Backfill(chat), "chat_id", chatId) || Holds(Backfill(chat), "id", chatId)) && OwnedBy(Backfill(chat), userId)
    ensures Matches(chat, chatId, userId) && "chat_id" !in chat ==> Holds(Backfill(chat), "chat_id", chatId)
  {
    (Holds(chat, "chat_id", chatId) || Holds(chat, "id", chatId)) && Holds(chat, "user_id", userId)
  }

  /** The filter of `get_chats`. */
  predicate OwnedBy(chat: ChatDoc, userId: string) {
    Holds(chat, "user_id", userId)
  }
}
