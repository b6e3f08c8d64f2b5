/**
  The persisted records. Each table's column constraints are stated as a
  predicate (`...Fits`); `created_at` is not a field: records are kept in
  insertion order, which is the order of their creation times.
*/
module Models {
  import opened Base

  /** A calendar date, as a day number. */
  type Day = nat

  /** The role of a chat message. Stored messages are `user` or `assistant`;
      `system` only opens the history sent to the completion service. */
  datatype Role = SystemRole | UserRole | AssistantRole

  /** A user, identified by its position in the user table. Users are never
      deleted, so the position is always one less than the database's
      autoincrement id, which starts at 1. */
  datatype User = User(
    username: string,
    email: string,
    passwordHash: string,
    dailyRequestCount: nat,
    lastRequestDate: Day)

  /** A conversation, identified, like a user, by its position in its
      table: one less than its database id. */
  datatype Conversation = Conversation(userId: nat, title: string)

  /** One persisted conversation message. */
  datatype Message = Message(conversationId: nat, role: Role, content: string)

  /** A saved favourite. Saved items can be deleted, so they carry the id
      the database assigned them. */
  datatype SavedItem = SavedItem(
    id: nat,
    userId: nat,
    category: string,
    content: string,
    author: Option<string>,
    topic: string)

  /** One topic lookup. */
  datatype SearchedItem = SearchedItem(userId: nat, topic: string, feature: string)

  /** `username` and `email` are `String(100)`. */
  predicate UserFits(u: User) {
    |u.username| <= 100 && |u.email| <= 100
  }

  /** `title` is `String(200)`. */
  predicate ConversationFits(c: Conversation) {
    |c.title| <= 200
  }

  /** `category` is `String(10)` holding "fact" or "quote"; `author` and
      `topic` are `String(200)`. */
  predicate SavedItemFits(i: SavedItem) {
    && i.category in {"fact", "quote"}
    && |i.category| <= 10
    && (i.author.Some? ==> |i.author.value| <= 200)
    && |i.topic| <= 200
  }

  /** `topic` is `String(200)`; `feature` is "facts" or "quotes". */
  predicate SearchedItemFits(s: SearchedItem) {
    |s.topic| <= 200 && s.feature in {"facts", "quotes"}
  }
}
