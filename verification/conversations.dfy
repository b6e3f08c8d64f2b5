/**
  The conversation manager: bounded question-and-answer threads. A
  conversation is closed once it holds `MAX_MESSAGES_PER_CONVERSATION` user
  messages; no flag is stored, the state is derived by counting.
*/
module Conversations {
  import opened Base
  import opened Errors
  import opened Models
  import opened Gateway
  import opened Db
  import opened Quota
  import opened Schemas

  /** User messages a conversation accepts. */
  const MAX_MESSAGES_PER_CONVERSATION: nat := 5

  /** The question-and-answer system prompt. Its module (`app/prompts/qa_prompt.py`)
      is not part of this model, so the text is left unspecified. */
  const QA_SYSTEM_PROMPT: string

  /** The messages of conversation `cid`, in creation order. */
  function MessagesOf(msgs: seq<Message>, cid: nat): (r: seq<Message>)
    ensures |r| <= |msgs|
    decreases |msgs|
  {
    if |msgs| == 0 then []
    else
      var last := msgs[|msgs| - 1];
      var rest := MessagesOf(msgs[..|msgs| - 1], cid);
      if last.conversationId == cid then rest + [last] else rest
  }

  /** The thread holds exactly the messages that name conversation `cid`. */
  lemma {:induction false} MessagesOfMembers(msgs: seq<Message>, cid: nat)
    ensures forall m :: m in MessagesOf(msgs, cid) <==> m in msgs && m.conversationId == cid
    decreases |msgs|
  {
    if |msgs| > 0 {
      MessagesOfMembers(msgs[..|msgs| - 1], cid);
      assert forall m :: m in msgs <==> m in msgs[..|msgs| - 1] || m == msgs[|msgs| - 1];
    }
  }

  /** The number of user messages in conversation `cid`, as the turn-limit
      query counts them. */
  function UserMessageCount(msgs: seq<Message>, cid: nat): (n: nat)
    ensures n <= |MessagesOf(msgs, cid)|
    decreases |msgs|
  {
    if |msgs| == 0 then 0
    else
      var last := msgs[|msgs| - 1];
      UserMessageCount(msgs[..|msgs| - 1], cid)
        + (if last.conversationId == cid && last.role == UserRole then 1 else 0)
  }

  /** The user messages of a thread, counted from its start. */
  function UserTurns(thread: seq<Message>): nat {
    if |thread| == 0 then 0
    else (if thread[0].role == UserRole then 1 else 0) + UserTurns(thread[1..])
  }

  lemma {:induction false} UserTurnsAppend(thread: seq<Message>, m: Message)
    ensures UserTurns(thread + [m]) == UserTurns(thread) + (if m.role == UserRole then 1 else 0)
    decreases |thread|
  {
    if |thread| > 0 {
      assert (thread + [m])[1..] == thread[1..] + [m];
      UserTurnsAppend(thread[1..], m);
    }
  }

  /** The turn-limit query counts exactly the user messages of the
      conversation's thread. */
  lemma {:induction false} UserMessageCountIsThreadTurns(msgs: seq<Message>, cid: nat)
    ensures UserMessageCount(msgs, cid) == UserTurns(MessagesOf(msgs, cid))
    decreases |msgs|
  {
    if |msgs| > 0 {
      var last := msgs[|msgs| - 1];
      UserMessageCountIsThreadTurns(msgs[..|msgs| - 1], cid);
      if last.conversationId == cid {
        UserTurnsAppend(MessagesOf(msgs[..|msgs| - 1], cid), last);
      }
    }
  }

  /** Appending a message extends its own conversation's thread only. */
  lemma MessagesOfAppend(msgs: seq<Message>, m: Message, cid: nat)
    ensures MessagesOf(msgs + [m], cid) == MessagesOf(msgs, cid) + (if m.conversationId == cid then [m] else [])
    ensures UserMessageCount(msgs + [m], cid)
            == UserMessageCount(msgs, cid) + (if m.conversationId == cid && m.role == UserRole then 1 else 0)
  {
    assert (msgs + [m])[..|msgs|] == msgs;
  }

  /** Filtering a table in two parts and joining the threads gives the
      thread of the whole table: the thread keeps the table's order. */
  lemma {:induction false} MessagesOfConcat(a: seq<Message>, b: seq<Message>, cid: nat)
    ensures MessagesOf(a + b, cid) == MessagesOf(a, cid) + MessagesOf(b, cid)
    decreases |b|
  {
    if |b| == 0 {
      assert a + b == a;
    } else {
      var front := b[..|b| - 1];
      var m := b[|b| - 1];
      assert a + b == (a + front) + [m];
      assert b == front + [m];
      MessagesOfConcat(a, front, cid);
      MessagesOfAppend(a + front, m, cid);
      MessagesOfAppend(front, m, cid);
    }
  }

  /** A conversation nothing refers to has no messages. */
  lemma {:induction false} NoMessagesYet(msgs: seq<Message>, cid: nat)
    requires forall i :: 0 <= i < |msgs| ==> msgs[i].conversationId != cid
    ensures MessagesOf(msgs, cid) == []
    ensures UserMessageCount(msgs, cid) == 0
    decreases |msgs|
  {
    if |msgs| > 0 {
      NoMessagesYet(msgs[..|msgs| - 1], cid);
    }
  }

  function ChatOf(m: Message): ChatMessage {
    ChatMessage(m.role, m.content)
  }

  /** What `send_message` sends: the system prompt, then every persisted
      message of the conversation in creation order, both roles. */
  function History(msgs: seq<Message>, cid: nat): (h: seq<ChatMessage>)
    ensures |h| == |MessagesOf(msgs, cid)| + 1
    ensures h[0] == ChatMessage(SystemRole, QA_SYSTEM_PROMPT)
    ensures forall i :: 0 <= i < |MessagesOf(msgs, cid)| ==> h[i + 1] == ChatOf(MessagesOf(msgs, cid)[i])
  {
    var ms := MessagesOf(msgs, cid);
    [ChatMessage(SystemRole, QA_SYSTEM_PROMPT)] + seq(|ms|, i requires 0 <= i < |ms| => ChatOf(ms[i]))
  }

  /** The title: the first 100 characters of the opening message. */
  function Title(message: string): (t: string)
    ensures |t| == if |message| < 100 then |message| else 100
    ensures t == message[..|t|]
  {
    if |message| <= 100 then message else message[..100]
  }

  /** The success body of `start` and `send`. */
  datatype Reply = Reply(conversationId: nat, reply: string, messagesRemaining: int)

  /** After a completion answered: store the reply in thread `cid`, then
      charge user `me`. */
  function StoreReply(t: Trace, me: nat, cid: nat, reply: string): (t': Trace)
    requires t.Valid() && me < |t.after.users|
    ensures t'.Valid() && t'.before == t.before
    ensures t'.writes == t.writes
      + [AddMessage(Message(cid, AssistantRole, reply)), PutUser(me, IncrementRequestCount(t.after.users[me]))]
    ensures t'.after == t.after.(users := t.after.users[me := IncrementRequestCount(t.after.users[me])],
                                 messages := t.after.messages + [Message(cid, AssistantRole, reply)])
  {
    IncrementStored(Commit(t, AddMessage(Message(cid, AssistantRole, reply))), me)
  }

  /** From a granted quota check on: create the conversation, store the
      opening message, send it alone, store the reply, charge user `me`. */
  function Open(t: Trace, me: nat, message: string, chat: Chat)
    : (x: Exchange<Reply, seq<ChatMessage>>)
    requires t.Valid() && me < |t.after.users|
    ensures x.trace.Valid() && x.trace.before == t.before
    ensures x.asked == Some([ChatMessage(SystemRole, QA_SYSTEM_PROMPT), ChatMessage(UserRole, message)])
    ensures chat(x.asked.value).Failed? ==>
      && x.result == Err(AppFailure(AppError(chat(x.asked.value).message, 500)))
      && x.trace.writes == t.writes
           + [AddConversation(Conversation(me, Title(message))),
              AddMessage(Message(|t.after.conversations|, UserRole, message))]
      && x.trace.after == t.after.(conversations := t.after.conversations + [Conversation(me, Title(message))],
                                   messages := t.after.messages + [Message(|t.after.conversations|, UserRole, message)])
    ensures x.result.Ok? <==> chat(x.asked.value).Answer?
    ensures x.result.Ok? ==>
      && x.result.value == Reply(|t.after.conversations|, chat(x.asked.value).value, MAX_MESSAGES_PER_CONVERSATION - 1)
      && x.trace.writes == t.writes
           + [AddConversation(Conversation(me, Title(message))),
              AddMessage(Message(|t.after.conversations|, UserRole, message)),
              AddMessage(Message(|t.after.conversations|, AssistantRole, chat(x.asked.value).value)),
              PutUser(me, IncrementRequestCount(t.after.users[me]))]
      && x.trace.after == t.after.(users := t.after.users[me := IncrementRequestCount(t.after.users[me])],
                                   conversations := t.after.conversations + [Conversation(me, Title(message))],
                                   messages := t.after.messages + [Message(|t.after.conversations|, UserRole, message),
                                                                   Message(|t.after.conversations|, AssistantRole, chat(x.asked.value).value)])
  {
    var cid := |t.after.conversations|;
    var t1 := Commit(t, AddConversation(Conversation(me, Title(message))));
    var t2 := Commit(t1, AddMessage(Message(cid, UserRole, message)));
    var history := [ChatMessage(SystemRole, QA_SYSTEM_PROMPT), ChatMessage(UserRole, message)];
    var answer := chat(history);
    if answer.Failed? then
      Exchange(AsOpenAIError(answer), t2, Some(history))
    else
      Exchange(Ok(Reply(cid, answer.value, MAX_MESSAGES_PER_CONVERSATION - 1)),
               StoreReply(t2, me, cid, answer.value), Some(history))
  }

  /** `start_conversation` for user `me`. */
  function StartConversation(st: Store, me: nat, raw: StartRequest, today: Day, chat: Chat)
    : (x: Exchange<Reply, seq<ChatMessage>>)
    requires me < |st.users|
    ensures x.trace.Valid() && x.trace.before == st
    // a refused body: nothing happens
    ensures LoadStart(raw).Err? ==>
      x.result == Err(LoadStart(raw).failure) && x.trace.writes == [] && x.asked == None
    // quota exhausted: RateLimitError before anything is created
    ensures LoadStart(raw).Ok? && !CheckRateLimit(st.users[me], today).0.allowed ==>
      && x.result == Throw(RateLimited, "Daily request limit reached")
      && x.trace.writes == [] && x.trace.after == st && x.asked == None
    // otherwise a conversation is created and the opening message sent alone
    ensures LoadStart(raw).Ok? && CheckRateLimit(st.users[me], today).0.allowed ==>
      && x.asked == Some([ChatMessage(SystemRole, QA_SYSTEM_PROMPT), ChatMessage(UserRole, raw.message.value)])
      && x.trace.after.conversations == st.conversations + [Conversation(me, Title(raw.message.value))]
    // completion failure: the conversation and the user message stay, no reply, no charge
    ensures x.asked.Some? && chat(x.asked.value).Failed? ==>
      && x.result == Err(AppFailure(AppError(chat(x.asked.value).message, 500)))
      && x.trace.writes == ResetWrites(st, me, today)
           + [AddConversation(Conversation(me, Title(raw.message.value))),
              AddMessage(Message(|st.conversations|, UserRole, raw.message.value))]
      && x.trace.after == st.(users := st.users[me := Checked(st, me, today)],
                              conversations := st.conversations + [Conversation(me, Title(raw.message.value))],
                              messages := st.messages + [Message(|st.conversations|, UserRole, raw.message.value)])
    // success: the reply is stored, then the quota is charged
    ensures x.result.Ok? <==> x.asked.Some? && chat(x.asked.value).Answer?
    ensures x.result.Ok? ==>
      && x.result.value == Reply(|st.conversations|, chat(x.asked.value).value, MAX_MESSAGES_PER_CONVERSATION - 1)
      && x.trace.writes == ResetWrites(st, me, today)
           + [AddConversation(Conversation(me, Title(raw.message.value))),
              AddMessage(Message(|st.conversations|, UserRole, raw.message.value)),
              AddMessage(Message(|st.conversations|, AssistantRole, chat(x.asked.value).value)),
              PutUser(me, IncrementRequestCount(Checked(st, me, today)))]
      && x.trace.after == st.(users := st.users[me := IncrementRequestCount(Checked(st, me, today))],
                              conversations := st.conversations + [Conversation(me, Title(raw.message.value))],
                              messages := st.messages + [Message(|st.conversations|, UserRole, raw.message.value),
                                                         Message(|st.conversations|, AssistantRole, chat(x.asked.value).value)])
  {
    match LoadStart(raw)
    case Err(failure) => Exchange(Err(failure), Begin(st), None)
    case Ok(message) =>
      var (verdict, t) := CheckStored(Begin(st), me, today);
      CheckedStore(st, me, today);
      if !verdict.allowed then
        Exchange(Throw(RateLimited, "Daily request limit reached"), t, None)
      else
        UpdateTwice(st.users, me, Checked(st, me, today), IncrementRequestCount(Checked(st, me, today)));
        Open(t, me, message, chat)
  }

  /** From the stored user message on: append it to thread `cid`, send the
      whole thread, store the reply, charge user `me`. */
  function Continue(t: Trace, me: nat, cid: nat, message: string, chat: Chat)
    : (x: Exchange<Reply, seq<ChatMessage>>)
    requires t.Valid() && me < |t.after.users|
    ensures x.trace.Valid() && x.trace.before == t.before
    ensures x.asked == Some(History(t.after.messages + [Message(cid, UserRole, message)], cid))
    ensures chat(x.asked.value).Failed? ==>
      && x.result == Err(AppFailure(AppError(chat(x.asked.value).message, 500)))
      && x.trace.writes == t.writes + [AddMessage(Message(cid, UserRole, message))]
      && x.trace.after == t.after.(messages := t.after.messages + [Message(cid, UserRole, message)])
    ensures x.result.Ok? <==> chat(x.asked.value).Answer?
    ensures x.result.Ok? ==>
      && x.result.value == Reply(cid, chat(x.asked.value).value,
                                 MAX_MESSAGES_PER_CONVERSATION - (UserMessageCount(t.after.messages, cid) + 1))
      && x.trace.writes == t.writes
           + [AddMessage(Message(cid, UserRole, message)),
              AddMessage(Message(cid, AssistantRole, chat(x.asked.value).value)),
              PutUser(me, IncrementRequestCount(t.after.users[me]))]
      && x.trace.after == t.after.(users := t.after.users[me := IncrementRequestCount(t.after.users[me])],
                                   messages := t.after.messages + [Message(cid, UserRole, message),
                                                                   Message(cid, AssistantRole, chat(x.asked.value).value)])
  {
    var count := UserMessageCount(t.after.messages, cid);
    var t1 := Commit(t, AddMessage(Message(cid, UserRole, message)));
    var history := History(t1.after.messages, cid);
    var answer := chat(history);
    if answer.Failed? then
      Exchange(AsOpenAIError(answer), t1, Some(history))
    else
      Exchange(Ok(Reply(cid, answer.value, MAX_MESSAGES_PER_CONVERSATION - (count + 1))),
               StoreReply(t1, me, cid, answer.value), Some(history))
  }

  /** The half of `send_message` after the conversation has been found,
      its owner confirmed and its turn limit checked: quota, user message,
      completion over the whole thread, reply, charge. */
  function Converse(st: Store, me: nat, cid: nat, message: string, today: Day, chat: Chat)
    : (x: Exchange<Reply, seq<ChatMessage>>)
    requires me < |st.users| && cid < |st.conversations|
    requires UserMessageCount(st.messages, cid) < MAX_MESSAGES_PER_CONVERSATION
    ensures x.trace.Valid() && x.trace.before == st
    ensures !CheckRateLimit(st.users[me], today).0.allowed ==>
      && x.result == Throw(RateLimited, "Daily request limit reached")
      && x.trace.writes == [] && x.trace.after == st && x.asked == None
    // the thread sent ends with the message just stored
    ensures x.asked.Some? <==> CheckRateLimit(st.users[me], today).0.allowed
    ensures x.asked.Some? ==> x.asked.value == History(st.messages + [Message(cid, UserRole, message)], cid)
    // completion failure: the user message stays, no reply, no charge
    ensures x.asked.Some? && chat(x.asked.value).Failed? ==>
      && x.result == Err(AppFailure(AppError(chat(x.asked.value).message, 500)))
      && x.trace.writes == ResetWrites(st, me, today) + [AddMessage(Message(cid, UserRole, message))]
      && x.trace.after == st.(users := st.users[me := Checked(st, me, today)],
                              messages := st.messages + [Message(cid, UserRole, message)])
    ensures x.result.Ok? <==> x.asked.Some? && chat(x.asked.value).Answer?
    ensures x.result.Ok? ==>
      && x.result.value == Reply(cid, chat(x.asked.value).value,
                                 MAX_MESSAGES_PER_CONVERSATION - (UserMessageCount(st.messages, cid) + 1))
      && 0 <= x.result.value.messagesRemaining < MAX_MESSAGES_PER_CONVERSATION
      && x.trace.writes == ResetWrites(st, me, today)
           + [AddMessage(Message(cid, UserRole, message)),
              AddMessage(Message(cid, AssistantRole, chat(x.asked.value).value)),
              PutUser(me, IncrementRequestCount(Checked(st, me, today)))]
      && x.trace.after == st.(users := st.users[me := IncrementRequestCount(Checked(st, me, today))],
                              messages := st.messages + [Message(cid, UserRole, message),
                                                         Message(cid, AssistantRole, chat(x.asked.value).value)])
  {
    var (verdict, t) := CheckStored(Begin(st), me, today);
    CheckedStore(st, me, today);
    if !verdict.allowed then
      Exchange(Throw(RateLimited, "Daily request limit reached"), t, None)
    else
      UpdateTwice(st.users, me, Checked(st, me, today), IncrementRequestCount(Checked(st, me, today)));
      Continue(t, me, cid, message, chat)
  }

  /** Whether a loaded `send` request passes the checks that precede the quota. */
  predicate Admitted(st: Store, me: nat, data: SendData) {
    && 0 <= data.conversationId < |st.conversations|
    && st.conversations[data.conversationId].userId == me
    && UserMessageCount(st.messages, data.conversationId as nat) < MAX_MESSAGES_PER_CONVERSATION
  }

  /** `send_message` for user `me`: the checks run in the order
      validation, existence, ownership, turn limit, quota. */
  function SendMessage(st: Store, me: nat, raw: SendRequest, today: Day, chat: Chat)
    : (x: Exchange<Reply, seq<ChatMessage>>)
    requires me < |st.users|
    ensures x.trace.Valid() && x.trace.before == st
    // every refusal happens before anything is written or asked
    ensures x.asked.None? ==> x.result.Err? && x.trace.writes == [] && x.trace.after == st
    ensures LoadSend(raw).Err? ==> x.result == Err(LoadSend(raw).failure) && x.asked == None
    ensures LoadSend(raw).Ok? && !(0 <= raw.conversationId.value < |st.conversations|) ==>
      x.result == Throw(NotFound, "Conversation not found") && x.asked == None
    ensures LoadSend(raw).Ok? && 0 <= raw.conversationId.value < |st.conversations|
            && st.conversations[raw.conversationId.value].userId != me ==>
      x.result == Throw(Forbidden, "Not your conversation") && x.asked == None
    ensures LoadSend(raw).Ok? && 0 <= raw.conversationId.value < |st.conversations|
            && st.conversations[raw.conversationId.value].userId == me
            && UserMessageCount(st.messages, raw.conversationId.value) >= MAX_MESSAGES_PER_CONVERSATION ==>
      x.result == Throw(BadRequest, "Conversation message limit reached") && x.asked == None
    // past those checks the quota decides, and the conversation goes on
    ensures LoadSend(raw).Ok? && Admitted(st, me, LoadSend(raw).value) ==>
      x == Converse(st, me, raw.conversationId.value, raw.message.value, today, chat)
    ensures x.asked.Some? ==> LoadSend(raw).Ok? && Admitted(st, me, LoadSend(raw).value)
  {
    match LoadSend(raw)
    case Err(failure) => Exchange(Err(failure), Begin(st), None)
    case Ok(data) =>
      if !(0 <= data.conversationId < |st.conversations|) then
        Exchange(Throw(NotFound, "Conversation not found"), Begin(st), None)
      else if st.conversations[data.conversationId].userId != me then
        Exchange(Throw(Forbidden, "Not your conversation"), Begin(st), None)
      else if UserMessageCount(st.messages, data.conversationId as nat) >= MAX_MESSAGES_PER_CONVERSATION then
        Exchange(Throw(BadRequest, "Conversation message limit reached"), Begin(st), None)
      else
        Converse(st, me, data.conversationId as nat, data.message, today, chat)
  }

  /** The conversations among `cs[..n]` owned by `me`, newest first. */
  function OwnedNewestFirst(cs: seq<Conversation>, me: nat, n: nat): (r: seq<ConversationSummary>)
    requires n <= |cs|
    ensures forall s :: s in r ==> s.id < n && cs[s.id].userId == me && s == ShowSummary(s.id, cs[s.id])
    ensures forall i :: 0 <= i < n && cs[i].userId == me ==> ShowSummary(i, cs[i]) in r
    ensures forall i, j :: 0 <= i < j < |r| ==> r[i].id > r[j].id
  {
    if n == 0 then []
    else
      var rest := OwnedNewestFirst(cs, me, n - 1);
      if cs[n - 1].userId == me then [ShowSummary(n - 1, cs[n - 1])] + rest else rest
  }

  /** `list_conversations`: exactly the caller's conversations, newest first. */
  function ListConversations(st: Store, me: nat): (r: seq<ConversationSummary>)
    ensures forall s :: s in r ==>
      s.id < |st.conversations| && st.conversations[s.id].userId == me && s == ShowSummary(s.id, st.conversations[s.id])
    ensures forall i :: 0 <= i < |st.conversations| && st.conversations[i].userId == me ==>
      ShowSummary(i, st.conversations[i]) in r
    ensures forall i, j :: 0 <= i < j < |r| ==> r[i].id > r[j].id
  {
    OwnedNewestFirst(st.conversations, me, |st.conversations|)
  }

  /** `get_conversation`: a conversation with its messages in creation order,
      shown to its owner only. */
  function GetConversation(st: Store, me: nat, cid: nat): (r: Result<ConversationDetail>)
    ensures cid >= |st.conversations| ==> r == Throw(NotFound, "Conversation not found")
    ensures cid < |st.conversations| && st.conversations[cid].userId != me ==>
      r == Throw(Forbidden, "Not your conversation")
    ensures r.Ok? <==> cid < |st.conversations| && st.conversations[cid].userId == me
    ensures r.Ok? ==>
      && r.value.id == cid && r.value.title == st.conversations[cid].title
      && |r.value.messages| == |MessagesOf(st.messages, cid)|
      && forall i :: 0 <= i < |r.value.messages| ==> r.value.messages[i] == ShowMessage(MessagesOf(st.messages, cid)[i])
  {
    if cid >= |st.conversations| then Throw(NotFound, "Conversation not found")
    else if st.conversations[cid].userId != me then Throw(Forbidden, "Not your conversation")
    else Ok(ShowDetail(cid, st.conversations[cid], MessagesOf(st.messages, cid)))
  }

  // ----- invariants of the conversation tables -----

  /** Every message belongs to an existing conversation, and every
      conversation to an existing user. */
  predicate Attached(st: Store) {
    && (forall i :: 0 <= i < |st.messages| ==> st.messages[i].conversationId < |st.conversations|)
    && (forall i :: 0 <= i < |st.conversations| ==> st.conversations[i].userId < |st.users|)
  }

  /** No conversation holds more user messages than the limit. */
  predicate TurnsWithinLimit(st: Store) {
    forall cid :: 0 <= cid < |st.conversations| ==> UserMessageCount(st.messages, cid) <= MAX_MESSAGES_PER_CONVERSATION
  }

  /** Appending one message changes one conversation's user-message count,
      by one, and only when it is a user message. */
  lemma AppendCounts(msgs: seq<Message>, m: Message)
    ensures forall c: nat ::
      UserMessageCount(msgs + [m], c)
      == UserMessageCount(msgs, c) + (if m.conversationId == c && m.role == UserRole then 1 else 0)
  {
    forall c: nat
      ensures UserMessageCount(msgs + [m], c)
              == UserMessageCount(msgs, c) + (if m.conversationId == c && m.role == UserRole then 1 else 0)
    {
      MessagesOfAppend(msgs, m, c);
    }
  }

  // ----- properties of the handlers -----

  /** `start` charges the quota as the tracker's protocol says: a check,
      then an increment only when the reply came back. */
  lemma StartFollowsQuotaProtocol(st: Store, me: nat, raw: StartRequest, today: Day, chat: Chat)
    requires me < |st.users|
    requires LoadStart(raw).Ok?
    ensures var x := StartConversation(st, me, raw, today, chat);
      && |x.trace.after.users| == |st.users|
      && x.trace.after.users[me] == Serve(st.users[me], Attempt(today, x.result.Ok?))
      && (forall i :: 0 <= i < |st.users| && i != me ==> x.trace.after.users[i] == st.users[i])
  {
    var (verdict, t) := CheckStored(Begin(st), me, today);
    if verdict.allowed {
      var x := Open(t, me, raw.message.value, chat);
      assert x.result.Ok? ==> x.trace.after.users == t.after.users[me := IncrementRequestCount(t.after.users[me])];
    }
  }

  /** `send` charges the quota the same way, once its own checks pass. */
  lemma SendFollowsQuotaProtocol(st: Store, me: nat, raw: SendRequest, today: Day, chat: Chat)
    requires me < |st.users|
    requires LoadSend(raw).Ok? && Admitted(st, me, LoadSend(raw).value)
    ensures var x := SendMessage(st, me, raw, today, chat);
      && |x.trace.after.users| == |st.users|
      && x.trace.after.users[me] == Serve(st.users[me], Attempt(today, x.result.Ok?))
      && (forall i :: 0 <= i < |st.users| && i != me ==> x.trace.after.users[i] == st.users[i])
  {
    var (verdict, t) := CheckStored(Begin(st), me, today);
    if verdict.allowed {
      var x := Continue(t, me, raw.conversationId.value as nat, raw.message.value, chat);
      assert x.result.Ok? ==> x.trace.after.users == t.after.users[me := IncrementRequestCount(t.after.users[me])];
    }
  }

  /** `start` and `send` keep every quota within the daily limit. */
  lemma StartKeepsQuotaWithinLimit(st: Store, me: nat, raw: StartRequest, today: Day, chat: Chat)
    requires me < |st.users| && QuotaWithinLimit(st)
    ensures QuotaWithinLimit(StartConversation(st, me, raw, today, chat).trace.after)
  {
    var x := StartConversation(st, me, raw, today, chat);
    if x.result.Ok? {
      ChargeWithinLimit(st, me, today);
    } else if LoadStart(raw).Ok? {
      CheckWithinLimit(st, me, today);
    }
  }

  lemma SendKeepsQuotaWithinLimit(st: Store, me: nat, raw: SendRequest, today: Day, chat: Chat)
    requires me < |st.users| && QuotaWithinLimit(st)
    ensures QuotaWithinLimit(SendMessage(st, me, raw, today, chat).trace.after)
  {
    var x := SendMessage(st, me, raw, today, chat);
    if x.result.Ok? {
      ChargeWithinLimit(st, me, today);
    } else if LoadSend(raw).Ok? && Admitted(st, me, LoadSend(raw).value) {
      CheckWithinLimit(st, me, today);
    }
  }

  // ----- store-level facts -----

  /** Adding conversations owned by existing users and messages naming
      existing conversations keeps the tables attached. */
  lemma AttachedGrows(st: Store, users: seq<User>, cs: seq<Conversation>, ms: seq<Message>)
    requires Attached(st) && |users| == |st.users|
    requires forall i :: 0 <= i < |cs| ==> cs[i].userId < |st.users|
    requires forall i :: 0 <= i < |ms| ==> ms[i].conversationId < |st.conversations| + |cs|
    ensures Attached(st.(users := users, conversations := st.conversations + cs, messages := st.messages + ms))
  {
  }

  /** A question and its answer appended to thread `cid` extend it by
      those two messages and use one turn. */
  lemma AppendExchange(msgs: seq<Message>, cid: nat, user: Message, assistant: Message)
    requires user == Message(cid, UserRole, user.content)
    requires assistant == Message(cid, AssistantRole, assistant.content)
    ensures MessagesOf(msgs + [user, assistant], cid) == MessagesOf(msgs, cid) + [user, assistant]
    ensures UserMessageCount(msgs + [user, assistant], cid) == UserMessageCount(msgs, cid) + 1
  {
    MessagesOfAppend(msgs, user, cid);
    MessagesOfAppend(msgs + [user], assistant, cid);
    assert msgs + [user, assistant] == msgs + [user] + [assistant];
  }

  /** Appending messages to one thread, with at most one user message among
      them, keeps every thread within the turn limit provided that thread
      had a turn left. */
  lemma TurnsGrow(st: Store, users: seq<User>, cs: seq<Conversation>, cid: nat, user: Message, rest: seq<Message>)
    requires TurnsWithinLimit(st)
    requires user == Message(cid, UserRole, user.content)
    requires rest == [] || rest == [Message(cid, AssistantRole, rest[0].content)]
    requires cid < |st.conversations| + |cs|
    requires UserMessageCount(st.messages, cid) < MAX_MESSAGES_PER_CONVERSATION
    requires forall c :: |st.conversations| <= c < |st.conversations| + |cs| && c != cid ==> UserMessageCount(st.messages, c) == 0
    ensures TurnsWithinLimit(st.(users := users, conversations := st.conversations + cs, messages := st.messages + [user] + rest))
  {
    AppendCounts(st.messages, user);
    if rest != [] {
      AppendCounts(st.messages + [user], rest[0]);
    } else {
      assert st.messages + [user] + rest == st.messages + [user];
    }
  }

  // ----- the handlers' steps -----

  lemma OpenKeepsAttached(t: Trace, me: nat, message: string, chat: Chat)
    requires t.Valid() && me < |t.after.users| && Attached(t.after)
    ensures Attached(Open(t, me, message, chat).trace.after)
  {
    var x := Open(t, me, message, chat);
    var c := Conversation(me, Title(message));
    var user := Message(|t.after.conversations|, UserRole, message);
    if x.result.Ok? {
      var assistant := Message(|t.after.conversations|, AssistantRole, chat(x.asked.value).value);
      AttachedGrows(t.after, x.trace.after.users, [c], [user, assistant]);
    } else {
      AttachedGrows(t.after, x.trace.after.users, [c], [user]);
    }
  }

  lemma ContinueKeepsAttached(t: Trace, me: nat, cid: nat, message: string, chat: Chat)
    requires t.Valid() && me < |t.after.users| && Attached(t.after) && cid < |t.after.conversations|
    ensures Attached(Continue(t, me, cid, message, chat).trace.after)
  {
    var x := Continue(t, me, cid, message, chat);
    var user := Message(cid, UserRole, message);
    if x.result.Ok? {
      AttachedGrows(t.after, x.trace.after.users, [], [user, Message(cid, AssistantRole, chat(x.asked.value).value)]);
    } else {
      AttachedGrows(t.after, x.trace.after.users, [], [user]);
    }
  }

  lemma OpenKeepsTurns(t: Trace, me: nat, message: string, chat: Chat)
    requires t.Valid() && me < |t.after.users| && Attached(t.after) && TurnsWithinLimit(t.after)
    ensures TurnsWithinLimit(Open(t, me, message, chat).trace.after)
  {
    var x := Open(t, me, message, chat);
    var cid := |t.after.conversations|;
    var c := Conversation(me, Title(message));
    var user := Message(cid, UserRole, message);
    NoMessagesYet(t.after.messages, cid);
    if x.result.Ok? {
      var assistant := Message(cid, AssistantRole, chat(x.asked.value).value);
      assert [user, assistant] == [user] + [assistant];
      TurnsGrow(t.after, x.trace.after.users, [c], cid, user, [assistant]);
    } else {
      assert t.after.messages + [user] == t.after.messages + [user] + [];
      TurnsGrow(t.after, t.after.users, [c], cid, user, []);
    }
  }

  lemma ContinueKeepsTurns(t: Trace, me: nat, cid: nat, message: string, chat: Chat)
    requires t.Valid() && me < |t.after.users| && TurnsWithinLimit(t.after) && cid < |t.after.conversations|
    requires UserMessageCount(t.after.messages, cid) < MAX_MESSAGES_PER_CONVERSATION
    ensures TurnsWithinLimit(Continue(t, me, cid, message, chat).trace.after)
  {
    var x := Continue(t, me, cid, message, chat);
    var user := Message(cid, UserRole, message);
    if x.result.Ok? {
      var assistant := Message(cid, AssistantRole, chat(x.asked.value).value);
      assert [user, assistant] == [user] + [assistant];
      TurnsGrow(t.after, x.trace.after.users, [], cid, user, [assistant]);
    } else {
      assert t.after.messages + [user] == t.after.messages + [user] + [];
      TurnsGrow(t.after, t.after.users, [], cid, user, []);
    }
  }

  // ----- properties of the handlers -----

  /** `start` and `send` keep every message and conversation attached. */
  lemma StartKeepsAttached(st: Store, me: nat, raw: StartRequest, today: Day, chat: Chat)
    requires me < |st.users| && Attached(st)
    ensures Attached(StartConversation(st, me, raw, today, chat).trace.after)
  {
    if LoadStart(raw).Ok? {
      var (verdict, t) := CheckStored(Begin(st), me, today);
      if verdict.allowed {
        assert StartConversation(st, me, raw, today, chat) == Open(t, me, raw.message.value, chat);
        OpenKeepsAttached(t, me, raw.message.value, chat);
      }
    }
  }

  lemma SendKeepsAttached(st: Store, me: nat, raw: SendRequest, today: Day, chat: Chat)
    requires me < |st.users| && Attached(st)
    ensures Attached(SendMessage(st, me, raw, today, chat).trace.after)
  {
    if LoadSend(raw).Ok? && Admitted(st, me, LoadSend(raw).value) {
      var (verdict, t) := CheckStored(Begin(st), me, today);
      if verdict.allowed {
        ContinueKeepsAttached(t, me, raw.conversationId.value as nat, raw.message.value, chat);
      }
    }
  }

  /** A new conversation starts with one user message, so `start` keeps
      every thread within the turn limit. */
  lemma StartKeepsTurnsWithinLimit(st: Store, me: nat, raw: StartRequest, today: Day, chat: Chat)
    requires me < |st.users| && Attached(st) && TurnsWithinLimit(st)
    ensures TurnsWithinLimit(StartConversation(st, me, raw, today, chat).trace.after)
  {
    if LoadStart(raw).Ok? {
      var (verdict, t) := CheckStored(Begin(st), me, today);
      if verdict.allowed {
        OpenKeepsTurns(t, me, raw.message.value, chat);
      }
    }
  }

  /** A title is at most 100 characters, so opening a conversation keeps
      every conversation within its 200-character column. */
  lemma OpenKeepsConversationsFitting(t: Trace, me: nat, message: string, chat: Chat)
    requires t.Valid() && me < |t.after.users|
    requires forall i :: 0 <= i < |t.after.conversations| ==> ConversationFits(t.after.conversations[i])
    ensures var after := Open(t, me, message, chat).trace.after;
      forall i :: 0 <= i < |after.conversations| ==> ConversationFits(after.conversations[i])
  {
    var after := Open(t, me, message, chat).trace.after;
    assert after.conversations == t.after.conversations + [Conversation(me, Title(message))];
  }

  lemma StartKeepsConversationsFitting(st: Store, me: nat, raw: StartRequest, today: Day, chat: Chat)
    requires me < |st.users|
    requires forall i :: 0 <= i < |st.conversations| ==> ConversationFits(st.conversations[i])
    ensures var after := StartConversation(st, me, raw, today, chat).trace.after;
      forall i :: 0 <= i < |after.conversations| ==> ConversationFits(after.conversations[i])
  {
    if LoadStart(raw).Ok? {
      var (verdict, t) := CheckStored(Begin(st), me, today);
      if verdict.allowed {
        assert StartConversation(st, me, raw, today, chat) == Open(t, me, raw.message.value, chat);
        OpenKeepsConversationsFitting(t, me, raw.message.value, chat);
      }
    }
  }

  /** `send` checks the turn limit before storing the user message, so it
      keeps every thread within the limit. */
  lemma SendKeepsTurnsWithinLimit(st: Store, me: nat, raw: SendRequest, today: Day, chat: Chat)
    requires me < |st.users| && TurnsWithinLimit(st)
    ensures TurnsWithinLimit(SendMessage(st, me, raw, today, chat).trace.after)
  {
    if LoadSend(raw).Ok? && Admitted(st, me, LoadSend(raw).value) {
      var (verdict, t) := CheckStored(Begin(st), me, today);
      if verdict.allowed {
        ContinueKeepsTurns(t, me, raw.conversationId.value as nat, raw.message.value, chat);
      }
    }
  }

  /** A store that gained a conversation and its first exchange shows that
      thread to its owner, with one user turn spent. */
  lemma OpenedThread(st: Store, users: seq<User>, me: nat, message: string, reply: string)
    requires Attached(st)
    ensures var cid := |st.conversations|;
      var after := st.(users := users,
                       conversations := st.conversations + [Conversation(me, Title(message))],
                       messages := st.messages + [Message(cid, UserRole, message), Message(cid, AssistantRole, reply)]);
      && GetConversation(after, me, cid)
         == Ok(ConversationDetail(cid, Title(message), [MessageView(UserRole, message), MessageView(AssistantRole, reply)]))
      && UserMessageCount(after.messages, cid) == 1
  {
    var cid := |st.conversations|;
    var user := Message(cid, UserRole, message);
    var assistant := Message(cid, AssistantRole, reply);
    NoMessagesYet(st.messages, cid);
    AppendExchange(st.messages, cid, user, assistant);
    var after := st.(users := users,
                     conversations := st.conversations + [Conversation(me, Title(message))],
                     messages := st.messages + [user, assistant]);
    var d := GetConversation(after, me, cid);
    assert d.value.messages == [ShowMessage(user), ShowMessage(assistant)];
  }

  /** A started conversation holds the opening message and the reply, in
      that order, and has one turn used. */
  lemma StartOpensThread(st: Store, me: nat, raw: StartRequest, today: Day, chat: Chat)
    requires me < |st.users| && Attached(st)
    requires StartConversation(st, me, raw, today, chat).result.Ok?
    ensures var x := StartConversation(st, me, raw, today, chat);
      var cid := x.result.value.conversationId;
      && GetConversation(x.trace.after, me, cid)
         == Ok(ConversationDetail(cid, Title(raw.message.value),
                                  [MessageView(UserRole, raw.message.value), MessageView(AssistantRole, x.result.value.reply)]))
      && UserMessageCount(x.trace.after.messages, cid) == MAX_MESSAGES_PER_CONVERSATION - x.result.value.messagesRemaining
  {
    var x := StartConversation(st, me, raw, today, chat);
    var (verdict, t) := CheckStored(Begin(st), me, today);
    assert x == Open(t, me, raw.message.value, chat);
    OpenedThread(t.after, x.trace.after.users, me, raw.message.value, x.result.value.reply);
  }

  /** A started conversation heads the caller's list. */
  lemma StartIsNewest(st: Store, me: nat, raw: StartRequest, today: Day, chat: Chat)
    requires me < |st.users|
    requires StartConversation(st, me, raw, today, chat).result.Ok?
    ensures var x := StartConversation(st, me, raw, today, chat);
      && |ListConversations(x.trace.after, me)| > 0
      && ListConversations(x.trace.after, me)[0].id == x.result.value.conversationId
  {
    var after := StartConversation(st, me, raw, today, chat).trace.after;
    NewestOwnedHeadsList(after, me);
  }

  /** When the last conversation is `me`'s, it heads `me`'s list. */
  lemma NewestOwnedHeadsList(st: Store, me: nat)
    requires |st.conversations| > 0 && st.conversations[|st.conversations| - 1].userId == me
    ensures |ListConversations(st, me)| > 0
    ensures ListConversations(st, me)[0].id == |st.conversations| - 1
  {
  }

  /** What `send` asks about after storing message `m` in thread `cid`: the
      system prompt, the thread so far in order, then `m`. */
  lemma HistoryAfterPosting(msgs: seq<Message>, cid: nat, m: string)
    ensures var h := History(msgs + [Message(cid, UserRole, m)], cid);
      var earlier := MessagesOf(msgs, cid);
      && |h| == |earlier| + 2
      && h[0] == ChatMessage(SystemRole, QA_SYSTEM_PROMPT)
      && (forall i :: 0 <= i < |earlier| ==> h[i + 1] == ChatOf(earlier[i]))
      && h[|h| - 1] == ChatMessage(UserRole, m)
  {
    var posted := Message(cid, UserRole, m);
    var earlier := MessagesOf(msgs, cid);
    MessagesOfAppend(msgs, posted, cid);
    var thread := MessagesOf(msgs + [posted], cid);
    assert thread == earlier + [posted];
    forall i | 0 <= i < |earlier| ensures thread[i] == earlier[i] { }
  }

  /** `send` asks about the whole thread so far, in order, followed by the
      new message. */
  lemma SendAsksWholeThread(st: Store, me: nat, raw: SendRequest, today: Day, chat: Chat)
    requires me < |st.users|
    requires SendMessage(st, me, raw, today, chat).asked.Some?
    ensures var h := SendMessage(st, me, raw, today, chat).asked.value;
      var earlier := MessagesOf(st.messages, raw.conversationId.value);
      && |h| == |earlier| + 2
      && h[0] == ChatMessage(SystemRole, QA_SYSTEM_PROMPT)
      && (forall i :: 0 <= i < |earlier| ==> h[i + 1] == ChatOf(earlier[i]))
      && h[|h| - 1] == ChatMessage(UserRole, raw.message.value)
  {
    HistoryAfterPosting(st.messages, raw.conversationId.value as nat, raw.message.value);
  }

  /** The reported `messages_remaining` is exact: once it reaches zero, the
      next `send` to that conversation is refused whatever it carries. */
  lemma RemainingIsExact(st: Store, me: nat, raw: SendRequest, today: Day, chat: Chat,
                         next: SendRequest, later: Day, chat2: Chat)
    requires me < |st.users|
    requires SendMessage(st, me, raw, today, chat).result.Ok?
    requires next.conversationId == raw.conversationId && LoadSend(next).Ok?
    ensures var x := SendMessage(st, me, raw, today, chat);
      UserMessageCount(x.trace.after.messages, raw.conversationId.value)
      == MAX_MESSAGES_PER_CONVERSATION - x.result.value.messagesRemaining
    ensures var x := SendMessage(st, me, raw, today, chat);
      x.result.value.messagesRemaining == 0 ==>
        SendMessage(x.trace.after, me, next, later, chat2).result == Throw(BadRequest, "Conversation message limit reached")
  {
    var x := SendMessage(st, me, raw, today, chat);
    var cid := raw.conversationId.value as nat;
    AppendExchange(st.messages, cid, Message(cid, UserRole, raw.message.value),
                   Message(cid, AssistantRole, x.result.value.reply));
  }

  /** A worked exchange: a first question opens a conversation titled with
      it, and the answer leaves four turns. */
  lemma StartExample(chat: Chat)
    requires chat([ChatMessage(SystemRole, QA_SYSTEM_PROMPT), ChatMessage(UserRole, "Explain tides")]) == Answer("The moon pulls the oceans.")
    ensures var st := Store([User("ada", "ada@example.com", "h", 0, 7)], [], [], [], 1, []);
      var x := StartConversation(st, 0, StartRequest(Some("Explain tides")), 7, chat);
      && x.result == Ok(Reply(0, "The moon pulls the oceans.", 4))
      && x.trace.after.conversations == [Conversation(0, "Explain tides")]
      && x.trace.after.messages == [Message(0, UserRole, "Explain tides"), Message(0, AssistantRole, "The moon pulls the oceans.")]
      && x.trace.after.users[0].dailyRequestCount == 1
  {
  }
}
