/**
  The request schemas (what a route accepts before doing anything) and the
  response schemas (which record fields a response shows). A request field
  is `None` when the body omits it. Email syntax (`fields.Email`) is not
  checked here.
*/
module Schemas {
  import opened Base
  import opened Errors
  import opened Models

  /** A present string whose length lies in `[lo, hi]`. */
  predicate PresentWithin(f: Option<string>, lo: nat, hi: nat) {
    f.Some? && lo <= |f.value| <= hi
  }

  /** A present string at least `lo` long. */
  predicate PresentAtLeast(f: Option<string>, lo: nat) {
    f.Some? && lo <= |f.value|
  }

  /** `{name}` when the field check failed, nothing when it passed. */
  function Refuse(name: string, ok: bool): (r: set<string>)
    ensures name in r <==> !ok
    ensures forall n :: n in r ==> n == name
  {
    if ok then {} else {name}
  }

  // ---- TopicRequestSchema: facts and quotes requests ----

  datatype TopicRequest = TopicRequest(topic: Option<string>, comment: Option<string>)
  datatype TopicData = TopicData(topic: string, comment: Option<string>)

  /** `topic` is required, 1 to 200 characters; `comment` is optional
      (`None` when absent) and at most 500 characters. */
  function LoadTopicRequest(raw: TopicRequest): (r: Result<TopicData>)
    ensures r.Ok? <==> PresentWithin(raw.topic, 1, 200) && (raw.comment.Some? ==> |raw.comment.value| <= 500)
    ensures r.Ok? ==> r.value == TopicData(raw.topic.value, raw.comment)
    ensures r.Err? ==> r.failure.Invalid?
    ensures r.Err? ==> ("topic" in r.failure.fields <==> !PresentWithin(raw.topic, 1, 200))
    ensures r.Err? ==> ("comment" in r.failure.fields <==> raw.comment.Some? && |raw.comment.value| > 500)
  {
    var refused := Refuse("topic", PresentWithin(raw.topic, 1, 200))
      + Refuse("comment", raw.comment.None? || |raw.comment.value| <= 500);
    Validated(refused, TopicData(raw.topic.GetOr(""), raw.comment))
  }

  // ---- QAMessageSchema ----

  datatype QARequest = QARequest(conversationId: Option<string>, message: Option<string>)
  datatype QAData = QAData(conversationId: string, message: string)

  /** `conversation_id` is a required string; `message` is required, 1 to
      1000 characters. */
  function LoadQAMessage(raw: QARequest): (r: Result<QAData>)
    ensures r.Ok? <==> raw.conversationId.Some? && PresentWithin(raw.message, 1, 1000)
    ensures r.Ok? ==> r.value == QAData(raw.conversationId.value, raw.message.value)
    ensures r.Err? ==> r.failure.Invalid?
    ensures r.Err? ==> ("conversation_id" in r.failure.fields <==> raw.conversationId.None?)
    ensures r.Err? ==> ("message" in r.failure.fields <==> !PresentWithin(raw.message, 1, 1000))
  {
    var refused := Refuse("conversation_id", raw.conversationId.Some?)
      + Refuse("message", PresentWithin(raw.message, 1, 1000));
    Validated(refused, QAData(raw.conversationId.GetOr(""), raw.message.GetOr("")))
  }

  // ---- StartConversationSchema and SendMessageSchema ----

  datatype StartRequest = StartRequest(message: Option<string>)

  /** `message` is required, 1 to 1000 characters. */
  function LoadStart(raw: StartRequest): (r: Result<string>)
    ensures r.Ok? <==> PresentWithin(raw.message, 1, 1000)
    ensures r.Ok? ==> r.value == raw.message.value
    ensures r.Err? ==> r.failure == Invalid({"message"})
  {
    Validated(Refuse("message", PresentWithin(raw.message, 1, 1000)), raw.message.GetOr(""))
  }

  datatype SendRequest = SendRequest(conversationId: Option<int>, message: Option<string>)
  datatype SendData = SendData(conversationId: int, message: string)

  /** `conversation_id` is a required integer; `message` is required, 1 to
      1000 characters. */
  function LoadSend(raw: SendRequest): (r: Result<SendData>)
    ensures r.Ok? <==> raw.conversationId.Some? && PresentWithin(raw.message, 1, 1000)
    ensures r.Ok? ==> r.value == SendData(raw.conversationId.value, raw.message.value)
    ensures r.Err? ==> r.failure.Invalid?
    ensures r.Err? ==> ("conversation_id" in r.failure.fields <==> raw.conversationId.None?)
    ensures r.Err? ==> ("message" in r.failure.fields <==> !PresentWithin(raw.message, 1, 1000))
  {
    var refused := Refuse("conversation_id", raw.conversationId.Some?)
      + Refuse("message", PresentWithin(raw.message, 1, 1000));
    Validated(refused, SendData(raw.conversationId.GetOr(0), raw.message.GetOr("")))
  }

  // ---- SaveItemSchema ----

  datatype SaveRequest = SaveRequest(
    category: Option<string>, content: Option<string>, author: Option<string>, topic: Option<string>)
  datatype SaveData = SaveData(category: string, content: string, author: Option<string>, topic: string)

  /** `category` is "fact" or "quote"; `content` and `topic` are required and
      non-empty; `author` is optional (`None` when absent). */
  function LoadSave(raw: SaveRequest): (r: Result<SaveData>)
    ensures r.Ok? <==> && raw.category.Some? && raw.category.value in {"fact", "quote"}
                       && PresentAtLeast(raw.content, 1) && PresentAtLeast(raw.topic, 1)
    ensures r.Ok? ==> r.value == SaveData(raw.category.value, raw.content.value, raw.author, raw.topic.value)
    ensures r.Err? ==> r.failure.Invalid?
    ensures r.Err? ==> ("category" in r.failure.fields <==> !(raw.category.Some? && raw.category.value in {"fact", "quote"}))
    ensures r.Err? ==> ("content" in r.failure.fields <==> !PresentAtLeast(raw.content, 1))
    ensures r.Err? ==> ("topic" in r.failure.fields <==> !PresentAtLeast(raw.topic, 1))
    ensures r.Err? ==> "author" !in r.failure.fields
  {
    var refused := Refuse("category", raw.category.Some? && raw.category.value in {"fact", "quote"})
      + Refuse("content", PresentAtLeast(raw.content, 1))
      + Refuse("topic", PresentAtLeast(raw.topic, 1));
    Validated(refused, SaveData(raw.category.GetOr(""), raw.content.GetOr(""), raw.author, raw.topic.GetOr("")))
  }

  // ---- RegisterSchema and LoginSchema ----

  datatype RegisterRequest = RegisterRequest(email: Option<string>, username: Option<string>, password: Option<string>)
  datatype RegisterData = RegisterData(email: string, username: string, password: string)

  /** `email` is required; `username` is 3 to 80 characters; `password` is
      at least 6 characters. */
  function LoadRegister(raw: RegisterRequest): (r: Result<RegisterData>)
    ensures r.Ok? <==> raw.email.Some? && PresentWithin(raw.username, 3, 80) && PresentAtLeast(raw.password, 6)
    ensures r.Ok? ==> r.value == RegisterData(raw.email.value, raw.username.value, raw.password.value)
    ensures r.Err? ==> r.failure.Invalid?
    ensures r.Err? ==> ("email" in r.failure.fields <==> raw.email.None?)
    ensures r.Err? ==> ("username" in r.failure.fields <==> !PresentWithin(raw.username, 3, 80))
    ensures r.Err? ==> ("password" in r.failure.fields <==> !PresentAtLeast(raw.password, 6))
  {
    var refused := Refuse("email", raw.email.Some?)
      + Refuse("username", PresentWithin(raw.username, 3, 80))
      + Refuse("password", PresentAtLeast(raw.password, 6));
    Validated(refused, RegisterData(raw.email.GetOr(""), raw.username.GetOr(""), raw.password.GetOr("")))
  }

  datatype LoginRequest = LoginRequest(email: Option<string>, password: Option<string>)
  datatype LoginData = LoginData(email: string, password: string)

  /** `email` and `password` are required; the password has no length rule. */
  function LoadLogin(raw: LoginRequest): (r: Result<LoginData>)
    ensures r.Ok? <==> raw.email.Some? && raw.password.Some?
    ensures r.Ok? ==> r.value == LoginData(raw.email.value, raw.password.value)
    ensures r.Err? ==> r.failure.Invalid?
    ensures r.Err? ==> ("email" in r.failure.fields <==> raw.email.None?)
    ensures r.Err? ==> ("password" in r.failure.fields <==> raw.password.None?)
  {
    var refused := Refuse("email", raw.email.Some?) + Refuse("password", raw.password.Some?);
    Validated(refused, LoginData(raw.email.GetOr(""), raw.password.GetOr("")))
  }

  // ---- Response schemas ----

  /** A message as shown in a conversation: without `conversation_id`. */
  datatype MessageView = MessageView(role: Role, content: string)

  /** A conversation in the list: id and title, no owner, no messages. */
  datatype ConversationSummary = ConversationSummary(id: nat, title: string)

  /** A conversation in detail: no owner, with its messages. */
  datatype ConversationDetail = ConversationDetail(id: nat, title: string, messages: seq<MessageView>)

  /** A saved item as shown: without `user_id`. */
  datatype SavedItemView = SavedItemView(
    id: nat, category: string, content: string, author: Option<string>, topic: string)

  /** A user as shown: without the password hash or the request counter. */
  datatype UserView = UserView(id: nat, username: string, email: string, lastRequestDate: Day)

  function ShowMessage(m: Message): (v: MessageView)
    ensures v.role == m.role && v.content == m.content
  {
    MessageView(m.role, m.content)
  }

  function ShowSummary(id: nat, c: Conversation): (v: ConversationSummary)
    ensures v.id == id && v.title == c.title
  {
    ConversationSummary(id, c.title)
  }

  function ShowDetail(id: nat, c: Conversation, ms: seq<Message>): (v: ConversationDetail)
    ensures v.id == id && v.title == c.title
    ensures |v.messages| == |ms|
    ensures forall i :: 0 <= i < |ms| ==> v.messages[i] == ShowMessage(ms[i])
  {
    ConversationDetail(id, c.title, seq(|ms|, i requires 0 <= i < |ms| => ShowMessage(ms[i])))
  }

  function ShowSaved(it: SavedItem): (v: SavedItemView)
    ensures v.id == it.id && v.category == it.category && v.content == it.content
    ensures v.author == it.author && v.topic == it.topic
  {
    SavedItemView(it.id, it.category, it.content, it.author, it.topic)
  }

  function ShowUser(id: nat, u: User): (v: UserView)
    ensures v.id == id && v.username == u.username && v.email == u.email
    ensures v.lastRequestDate == u.lastRequestDate
  {
    UserView(id, u.username, u.email, u.lastRequestDate)
  }

  /** What a response leaves out cannot influence it. */
  lemma ResponsesIgnoreExcludedFields(
    id: nat, m: Message, c: Conversation, it: SavedItem, u: User,
    otherConversation: nat, otherUser: nat, otherHash: string, otherCount: nat)
    ensures ShowMessage(m.(conversationId := otherConversation)) == ShowMessage(m)
    ensures ShowSummary(id, c.(userId := otherUser)) == ShowSummary(id, c)
    ensures ShowSaved(it.(userId := otherUser)) == ShowSaved(it)
    ensures ShowUser(id, u.(passwordHash := otherHash, dailyRequestCount := otherCount)) == ShowUser(id, u)
  {
  }
}
