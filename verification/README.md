# AI toolkit backend — a Dafny model

This project models the request-handling core of a small Flask service. Authenticated users can:

- ask an AI completion service for five facts or five quotes on a topic;
- hold short question-and-answer conversations with it;
- save favourite facts and quotes;
- see which topics are searched most.

Every completion-consuming request is charged against a per-user daily quota of 30. The quota resets on the first request of a new day.

The persistence layer is an immutable `Store` (module `Db`) holding users, conversations, messages, saved items and searches. Each `db.session.commit()` of a route is one `Write`. A route returns its result together with a `Trace`: the store it started from, the writes it committed in order, and the store those writes leave behind. This lets the contracts state partial-failure shapes exactly. For example, a conversation whose completion call failed keeps the user message that was committed before the call.

Ids:

- Users and conversations are never deleted, so each is identified by its position in its table. That is one less than its database id, which starts at 1.
- Saved items can be deleted. They take their id from an autoincrement counter.
- `created_at` ordering is insertion order.

Several things the routes depend on are parameters of the model:

- the current user (the JWT middleware's result);
- today's date;
- the completion service, in its two forms: `Structured` for facts and quotes, `Chat` for conversations;
- password hashing (`Auth.Hasher`).

Modules, by program structure:

| module | models |
|---|---|
| `Quota` | the rate limiter and its protocol |
| `TopicQuery` | the facts and quotes routes |
| `Prompts` | their prompt builders |
| `Text` | topic normalisation |
| `Conversations` | the conversation routes |
| `Favourites` | the favourites routes |
| `Trending` | the trending aggregation |
| `Auth` | register and login |
| `Errors` | the error hierarchy and handlers |
| `Schemas` | request and response schemas |
| `Models` | the tables |

## Model

| member | source | states |
|---|---|---|
| Quota.CheckRateLimit | app/services/rate_limiter.py:9-29 | After a check the user's date is today and their count is reset to 0 exactly when the stored date was another day; nothing else about the user changes; remaining is 30 minus the count, and the request is allowed exactly when the count is below 30 |
| Quota.IncrementRequestCount | app/services/rate_limiter.py:32-41 | Raises the count by one and changes nothing else |
| Quota.CheckTwiceSameDay | app/services/rate_limiter.py:20-29 | A second check on the same day gives the same verdict and leaves the user as the first check did |
| Quota.FirstCheckOfDayAllowed | app/services/rate_limiter.py:22-29 | The first check of a new day is allowed with the full quota of 30 |
| Quota.RefusedExactlyAtLimit | app/services/rate_limiter.py:28-29 | For a count within the limit, a check is refused exactly when today's count already equals 30 |
| Quota.ServeAllWithinLimit | app/services/rate_limiter.py:28-41 | Under the check-then-increment-on-success protocol, no run of requests over any days takes a count past 30 |
| Quota.SameDayRun | app/services/rate_limiter.py:22-41 | Starting on a new day, n successful requests leave the count at exactly n, and the next check is refused exactly when n is 30 |
| Quota.CheckStored | app/services/rate_limiter.py:22-26 | A check commits a reset only on a new day; a refused check commits nothing at all |
| Quota.IncrementStored | app/services/rate_limiter.py:40-41 | Charging commits exactly one write for the user, with the count raised by one |
| Quota.ChargeWithinLimit | app/services/rate_limiter.py:28-41 | An allowed check followed by an increment keeps every stored count within 30 |
| Quota.CheckWithinLimit | app/services/rate_limiter.py:22-29 | A check on its own keeps every stored count within 30 |
| Errors.StatusCode | app/errors/exceptions.py:9-48 | Each error class has a status code between 400 and 500, and the class can be read back from its code, so no two classes share one |
| Errors.Raise | app/errors/exceptions.py:1-6 | A raised error keeps the message it was given and a code that identifies its class |
| Errors.RaiseDefault | app/errors/exceptions.py:9-48 | An error raised without a message carries its class's default message |
| Errors.Throw | app/errors/exceptions.py:1-6 | A route's raise is an application failure with the given message and its class's code |
| Errors.Validated | app/schemas/request_schemas.py:6-14 | A load succeeds exactly when no field is refused, returning the data; otherwise it fails naming exactly the refused fields |
| Errors.HandleError | app/errors/handlers.py:8-41 | Every error body repeats the HTTP status it is sent with; an AppError keeps its message and code; the framework's 404, 405 and 500 get their fixed messages |
| Errors.RaisedErrorResponse | app/errors/handlers.py:11-16 | A raised AppError reaches the client with its own message and a status that names its class |
| Gateway.AsOpenAIError | app/routes/facts.py:33-36 | A failed completion becomes an error with the failure's own message and status 500 |
| Text.Strip | app/routes/facts.py:44 | The result neither starts nor ends with whitespace, and it is the input with only whitespace removed from either end |
| Text.Lower | app/routes/facts.py:44 | Lower-casing keeps the length and maps each character on its own: an ASCII capital to its small letter, anything else to itself |
| Text.Normalize | app/routes/facts.py:44 | A normalised topic is the input's characters from its first non-whitespace one, each lower-cased, stopping where only whitespace is left; it has no upper-case ASCII letters and no surrounding whitespace |
| Text.LowerThenStrip | app/routes/facts.py:44 | Stripping after lower-casing drops the same leading whitespace as the input has and keeps the input's characters after it, lower-cased |
| Text.NormalizeIdempotent | app/routes/facts.py:44 | Normalising a stored topic again changes nothing |
| Text.NormalizeExample | app/routes/facts.py:44 | " Mars\t" normalises to "mars" |
| Text.StripKeepsTrimmed | app/routes/facts.py:44 | Stripping a string that neither starts nor ends with whitespace changes nothing |
| Text.LowerKeepsLowered | app/routes/facts.py:44 | Lower-casing a string without upper-case letters changes nothing |
| Prompts.Instruction | app/prompts/facts_prompt.py:33-34 | The comment is used exactly when it is present and non-empty (Python truthiness) |
| Prompts.BuildPrompt | app/prompts/facts_prompt.py:31-36 | The prompt is the lead sentence and the topic, followed by the instruction line exactly when there is an instruction |
| Prompts.BuildFactsPrompt | app/prompts/facts_prompt.py:20-36 | The facts prompt starts with the facts lead and the topic and carries the comment exactly when it is non-empty |
| Prompts.BuildQuotesPrompt | app/prompts/quotes_prompt.py:24-40 | The quotes prompt starts with the quotes lead and the topic and carries the comment exactly when it is non-empty |
| Prompts.ParseBuildRoundTrip | app/prompts/facts_prompt.py:31-36 | For a single-line topic, the topic and the instruction can be parsed back out of the built prompt |
| Prompts.FactsPromptInjective | app/prompts/facts_prompt.py:31-36 | Two single-line topics give the same facts prompt only when the topics and instructions are the same |
| Prompts.QuotesPromptInjective | app/prompts/quotes_prompt.py:35-40 | Two single-line topics give the same quotes prompt only when the topics and instructions are the same |
| Schemas.LoadTopicRequest | app/schemas/request_schemas.py:6-8 | Accepted exactly when the topic is present with 1 to 200 characters and any comment has at most 500; otherwise it names exactly the refused fields |
| Schemas.LoadQAMessage | app/schemas/request_schemas.py:12-14 | Accepted exactly when a conversation id is present and the message has 1 to 1000 characters; otherwise it names exactly the refused fields |
| Schemas.LoadStart | app/schemas/conversation_schema.py:8-9 | Accepted exactly when the message has 1 to 1000 characters |
| Schemas.LoadSend | app/schemas/conversation_schema.py:13-15 | Accepted exactly when an integer conversation id is present and the message has 1 to 1000 characters; otherwise it names exactly the refused fields |
| Schemas.LoadSave | app/schemas/saved_item_schema.py:6-10 | Accepted exactly when the category is "fact" or "quote" and content and topic are non-empty; the author is optional and never refused |
| Schemas.LoadRegister | app/schemas/user_schema.py:8-11 | Accepted exactly when an email is present, the username has 3 to 80 characters and the password at least 6; otherwise it names exactly the refused fields |
| Schemas.LoadLogin | app/schemas/user_schema.py:15-17 | Accepted exactly when email and password are both present, with no length rule on the password |
| Schemas.ShowMessage | app/schemas/conversation_schema.py:19-22 | A shown message keeps its role and content |
| Schemas.ShowSummary | app/schemas/conversation_schema.py:26-29 | A listed conversation shows its id and title |
| Schemas.ShowDetail | app/schemas/conversation_schema.py:33-38 | A detailed conversation shows its id, its title and each of its messages in order |
| Schemas.ShowSaved | app/schemas/saved_item_schema.py:14-17 | A shown saved item keeps every field but the owner |
| Schemas.ShowUser | app/schemas/user_schema.py:21-24 | A shown user keeps id, username, email and last request date |
| Schemas.ResponsesIgnoreExcludedFields | app/schemas/conversation_schema.py:19-38 | Changing a field a response schema excludes never changes the response: a message's conversation, a conversation's or item's owner, a user's hash and counter |
| Db.Without | app/routes/favourites.py:84-85 | Deleting by id leaves no item with that id and never adds items |
| Db.WithoutMembers | app/routes/favourites.py:84-85 | The items left after a delete are exactly the earlier items with a different id |
| TopicQuery.ListAt | app/routes/facts.py:53 | The reply's list is the result's entry under the key when there is one, and an empty list otherwise |
| TopicQuery.SearchRecord | app/routes/facts.py:42-46 | The recorded search is the caller's, with the normalised topic and the feature tag |
| TopicQuery.ChargeAndRecord | app/routes/facts.py:38-48 | After an answer: the caller is charged one request, then the search is recorded, and nothing else changes |
| TopicQuery.Ask | app/routes/facts.py:28-55 | After an allowed check: the completion is asked once with the feature's prompts; on failure nothing more is written; on success the quota is charged, then the search is recorded, and the reply carries the list and the quota left |
| TopicQuery.HandleTopic | app/routes/facts.py:17-55 | A refused body or an exhausted quota changes nothing and calls nothing; the prompt uses the topic as given; a failed call keeps only the quota reset; success writes the increment and then the normalised search, in that order |
| TopicQuery.GetFacts | app/routes/facts.py:17-55 | The facts route sends the facts prompts and returns the "facts" list; it records one "facts" search exactly when it succeeds; a refused body changes nothing, and otherwise the caller's quota takes one check and is charged exactly when the request succeeded, with no other user changed |
| TopicQuery.GetQuotes | app/routes/quotes.py:18-56 | The quotes route sends the quotes prompts and returns the "quotes" list; it records one "quotes" search exactly when it succeeds; a refused body changes nothing, and otherwise the caller's quota takes one check and is charged exactly when the request succeeded, with no other user changed |
| TopicQuery.TopicFollowsQuotaProtocol | app/routes/facts.py:23-39 | The caller's quota after a facts or quotes request is exactly check-then-increment-on-success, and no other user changes |
| TopicQuery.TopicKeepsQuotaWithinLimit | app/routes/facts.py:23-39 | Facts and quotes requests keep every stored count within 30 |
| TopicQuery.TopicKeepsSearchesFitting | app/models/searched_item.py:10-11 | A recorded search always fits its table: a topic of at most 200 characters and a "facts" or "quotes" tag |
| Conversations.MessagesOf | app/models/conversation.py:14 | A thread is never longer than the message table; its contents are stated by MessagesOfMembers and its order by MessagesOfConcat |
| Conversations.MessagesOfMembers | app/models/conversation.py:14 | A conversation's thread holds exactly the messages that name it |
| Conversations.MessagesOfAppend | app/models/conversation.py:14 | Appending a message extends only its own conversation's thread, and changes only that thread's user-message count, by one, when it is a user message |
| Conversations.MessagesOfConcat | app/models/conversation.py:14 | The thread of a table split in two parts is the first part's thread followed by the second's, so a thread keeps the table's creation order |
| Conversations.UserMessageCount | app/routes/conversation.py:103-107 | The turn-limit count never exceeds the length of the conversation's thread |
| Conversations.UserMessageCountIsThreadTurns | app/routes/conversation.py:103-107 | The turn-limit count equals the number of user messages in the conversation's thread, counted independently from its start |
| Conversations.History | app/routes/conversation.py:127-129 | The history sent is the system prompt followed by every stored message of the thread in creation order, with its role |
| Conversations.Title | app/routes/conversation.py:44 | The title is the first 100 characters of the opening message, or all of it when shorter |
| Conversations.StoreReply | app/routes/conversation.py:136-146 | After an answer: the assistant message is stored, then the caller is charged, and nothing else changes |
| Conversations.Open | app/routes/conversation.py:43-86 | The new conversation and its user message are stored before the call, which sends the system prompt and the message alone; a failure keeps both; an answer adds the reply and the charge and reports 4 turns left |
| Conversations.StartConversation | app/routes/conversation.py:32-86 | A refused body or an exhausted quota creates nothing; otherwise the conversation is titled from the message; a failed call leaves the conversation and user message without a charge; success stores the reply and then charges |
| Conversations.Continue | app/routes/conversation.py:117-152 | The user message is stored before the call, which sends the whole thread including it; a failure keeps it; an answer adds the reply and the charge and reports the limit minus the turns used |
| Conversations.Converse | app/routes/conversation.py:112-152 | Once the route's own checks pass: a refused quota writes nothing; the thread sent ends with the new message; the turns left are between 0 and 4 |
| Conversations.SendMessage | app/routes/conversation.py:89-152 | The checks run in order (body, "Conversation not found", "Not your conversation", "Conversation message limit reached", quota), each refusing with nothing written and nothing sent |
| Conversations.ListConversations | app/routes/conversation.py:155-164 | The list holds exactly the caller's conversations, shown by id and title, newest first |
| Conversations.OwnedNewestFirst | app/routes/conversation.py:158-160 | The listed summaries are exactly the caller's conversations, each shown by id and title, with ids strictly decreasing |
| Conversations.GetConversation | app/routes/conversation.py:167-180 | A missing id is NotFound, someone else's conversation is Forbidden, and the owner sees the title and every message of the thread in order |
| Conversations.AppendCounts | app/routes/conversation.py:103-107 | Appending a message raises only its own conversation's user-message count, by one, and only for a user message |
| Conversations.StartFollowsQuotaProtocol | app/routes/conversation.py:38-80 | Starting a conversation charges the caller's quota exactly by check-then-increment-on-success, and no other user changes |
| Conversations.SendFollowsQuotaProtocol | app/routes/conversation.py:112-146 | Sending a message charges the quota the same way once the conversation checks pass |
| Conversations.StartKeepsQuotaWithinLimit | app/routes/conversation.py:38-80 | Starting a conversation keeps every count within 30 |
| Conversations.SendKeepsQuotaWithinLimit | app/routes/conversation.py:112-146 | Sending a message keeps every count within 30 |
| Conversations.AttachedGrows | app/models/conversation.py:9 | Adding conversations owned by existing users, and messages naming existing conversations, keeps every reference valid |
| Conversations.AppendExchange | app/routes/conversation.py:117-143 | Storing an exchange extends its thread by the two messages and spends one user turn |
| Conversations.TurnsGrow | app/routes/conversation.py:103-124 | Storing a user message in a thread below the limit, with an optional reply, keeps every thread within the limit |
| Conversations.OpenKeepsAttached | app/routes/conversation.py:43-77 | Opening a conversation keeps every message and conversation attached |
| Conversations.ContinueKeepsAttached | app/routes/conversation.py:117-143 | Continuing an existing conversation keeps every message and conversation attached |
| Conversations.OpenKeepsTurns | app/routes/conversation.py:43-56 | A new conversation starts with one user turn, so opening keeps every thread within the limit |
| Conversations.ContinueKeepsTurns | app/routes/conversation.py:103-124 | Continuing a thread below the limit keeps every thread within it |
| Conversations.StartKeepsAttached | app/routes/conversation.py:32-86 | Starting a conversation keeps every message and conversation attached |
| Conversations.SendKeepsAttached | app/routes/conversation.py:89-152 | Sending a message keeps every message and conversation attached |
| Conversations.OpenKeepsConversationsFitting | app/routes/conversation.py:43-47 | Opening a conversation adds one titled with at most 100 characters, keeping every title within its 200-character column |
| Conversations.StartKeepsConversationsFitting | app/models/conversation.py:10 | A title is at most 100 characters, so starting a conversation keeps every title within its 200-character column |
| Conversations.StartKeepsTurnsWithinLimit | app/routes/conversation.py:32-86 | Starting a conversation keeps every thread within 5 user messages |
| Conversations.SendKeepsTurnsWithinLimit | app/routes/conversation.py:103-124 | Sending a message keeps every thread within 5 user messages, because the limit is checked before storing |
| Conversations.OpenedThread | app/routes/conversation.py:43-77 | A store that gained a conversation and its first exchange shows its owner exactly those two messages, with one turn spent |
| Conversations.StartOpensThread | app/routes/conversation.py:32-86 | After a successful start, the owner fetching the conversation sees its title and exactly the question and the reply, and the turns used match the reported turns left |
| Conversations.StartIsNewest | app/routes/conversation.py:155-164 | A started conversation heads its owner's list |
| Conversations.NewestOwnedHeadsList | app/routes/conversation.py:158-160 | When the newest conversation is the caller's, it heads the caller's list |
| Conversations.HistoryAfterPosting | app/routes/conversation.py:117-129 | After the user message is stored, the history is the system prompt, the earlier thread in order, and the new message last |
| Conversations.SendAsksWholeThread | app/routes/conversation.py:126-132 | Whatever send asks about is the system prompt, the whole earlier thread in order, and the new message |
| Conversations.RemainingIsExact | app/routes/conversation.py:103-151 | The reported turns left equal the limit minus the user messages stored; at zero, the next send to that conversation is refused with "Conversation message limit reached" |
| Conversations.StartExample | app/routes/conversation.py:32-86 | "Explain tides" opens the first conversation (table position 0) with that title, stores the exchange, charges one request and reports 4 turns left |
| Favourites.Find | app/routes/favourites.py:74-77 | The lookup finds nothing exactly when no item has the id, and otherwise finds a stored item with that id |
| Favourites.AddFavourite | app/routes/favourites.py:20-47 | Refused with "Item already saved" exactly when the caller already has an item under the topic, whatever its category; otherwise one item is stored with the next id, the caller and the given fields, and echoed back |
| Favourites.CategoryFilter | app/routes/favourites.py:53-60 | An absent or empty category means no filter; any other value must be "fact" or "quote", or the request is refused with a BadRequest |
| Favourites.NewestFirst | app/routes/favourites.py:55-62 | The listing is never longer than the table and holds only the caller's items that pass the filter |
| Favourites.NewestFirstMembers | app/routes/favourites.py:55-62 | The listing holds exactly the caller's items that pass the filter |
| Favourites.NewestFirstOrder | app/routes/favourites.py:62 | With ids in insertion order, the listing is newest first |
| Favourites.GetFavourites | app/routes/favourites.py:49-67 | A bad category is refused; otherwise the list holds exactly the caller's matching items, newest first, and the count is its length |
| Favourites.DeleteFavourite | app/routes/favourites.py:70-87 | A missing id is NotFound and someone else's item is Forbidden, with nothing written; otherwise exactly that item is removed |
| Favourites.WithoutKeepsOrder | app/routes/favourites.py:84-85 | Deleting keeps the remaining items in id order and below the counter |
| Favourites.WithoutDropsOne | app/routes/favourites.py:84-85 | Deleting an id that is held once removes exactly one item |
| Favourites.WithoutAbsent | app/routes/favourites.py:84-85 | Deleting an id no item holds changes nothing |
| Favourites.AddKeepsInvariants | app/routes/favourites.py:26-41 | Adding keeps ids ascending and each user's topics unique |
| Favourites.WithoutKeepsInvariants | app/routes/favourites.py:84-85 | Removing an item by id keeps ids ascending and topics unique |
| Favourites.DeleteKeepsInvariants | app/routes/favourites.py:70-87 | Deleting keeps ids ascending and topics unique |
| Favourites.DeleteIsFinal | app/routes/favourites.py:74-85 | A delete removes exactly one item, and deleting the same id again is NotFound |
| Favourites.NewestFirstAppend | app/routes/favourites.py:62 | An item added last and passing the filter comes first in the listing |
| Favourites.AddedHeadsList | app/routes/favourites.py:33-62 | A just-added item heads the caller's listing, unfiltered or filtered by its own category |
| Favourites.AddKeepsItemsFitting | app/models/saved_item.py:12-13 | When the request's topic and author fit in 200 characters, the stored items fit their columns |
| Favourites.OverlongTopicAccepted | app/schemas/saved_item_schema.py:10 | A 201-character topic passes the schema and is stored, although its column holds 200 |
| Trending.FeatureFilter | app/routes/trending.py:16-27 | An absent or empty feature counts every record; any other value must be "facts" or "quotes", or the request is refused with a BadRequest |
| Trending.CountedOccurrences | app/routes/trending.py:19-29 | Grouping the counted topics gives each topic exactly its number of matching records |
| Trending.CountedMembers | app/routes/trending.py:19-27 | Every record that matches the filter contributes its topic |
| Trending.DistinctMembers | app/routes/trending.py:29 | Grouping yields each topic once, and exactly the topics present |
| Trending.InsertPermutes | app/routes/trending.py:29 | Inserting a row adds exactly that row |
| Trending.InsertKeepsDescending | app/routes/trending.py:29 | Inserting into a list sorted by count keeps it sorted |
| Trending.InsertKeepsDistinct | app/routes/trending.py:29 | Inserting a row for a new topic keeps topics distinct |
| Trending.SortByCountSorts | app/routes/trending.py:29 | Sorting permutes the rows, orders them by non-increasing count, and keeps topics distinct |
| Trending.TallyCounts | app/routes/trending.py:19-29 | Each grouped row is a distinct topic with its exact count, at least 1 |
| Trending.TallyCovers | app/routes/trending.py:19-29 | Every counted topic has its row among the groups |
| Trending.Top | app/routes/trending.py:29 | The limit keeps at most 10 rows, a prefix of the sorted list, and all of it when it is shorter |
| Trending.TopOmitsOnlySmaller | app/routes/trending.py:29 | A topic missing from the top rows of a sorted list means 10 rows were kept, each with a count at least as large |
| Trending.TopIsTrending | app/routes/trending.py:29 | The top rows of any sorted, exact, complete, distinct grouping meet the trending promise |
| Trending.Rank | app/routes/trending.py:19-29 | For any records and filter, the ranking has distinct topics, exact counts of at least 1, non-increasing counts and at most 10 rows, and omits a topic only when 10 rows with counts at least as large are shown |
| Trending.GetTrending | app/routes/trending.py:11-36 | A bad feature is refused; otherwise the list meets the trending promise over all users' searches, and the count is its length |
| Trending.UnfilteredIsSum | app/routes/trending.py:24-27 | When every record is tagged "facts" or "quotes", a topic's unfiltered count is its facts count plus its quotes count |
| Trending.TrendingExample | app/routes/trending.py:19-35 | Two "mars" searches and one "tides" search rank "mars" with 2 first, then "tides" with 1 |
| Auth.FindByEmail | app/routes/auth.py:44 | The lookup finds nothing exactly when no user has the email, and otherwise finds the first user that has it |
| Auth.Register | app/routes/auth.py:11-36 | A taken email is refused with "Email already exists" before a taken username is refused with "Username already taken"; otherwise exactly one user is added, with the hash of the password and a zero count, and shown back |
| Auth.Login | app/routes/auth.py:38-61 | Succeeds exactly when the email is known and the password checks against that user's stored hash, returning that user; every other loaded request gets the same "Invalid email or password" |
| Auth.RegisterKeepsUsersUnique | app/routes/auth.py:17-26 | Registering keeps emails and usernames unique across users |
| Auth.LoginFindsTheOwner | app/routes/auth.py:43-51 | With unique emails, login succeeds for a user's email exactly when the password checks against that user's hash, and returns that user |
| Auth.LoginHidesWhichCheckFailed | app/routes/auth.py:44-51 | An unknown email and a wrong password give the same response |
| Auth.RegisterKeepsUsersFitting | app/models/user.py:10-11 | When the email fits its 100-character column, registering keeps every user within its columns, since the schema bounds the username to 80 |
| Auth.OverlongEmailAccepted | app/schemas/user_schema.py:9 | A 101-character email passes the register schema and is stored, although its column holds 100 |
| Auth.RegisterThenLogin | app/routes/auth.py:11-61 | With a hasher that accepts its own hashes, a new user can log in with the chosen password and gets themselves back, and registering the same email again is a Conflict |

## Left out

- The completion service (app/services/openai_services.py) is not part of this model. Routes receive it as a function, so any answer or failure can come back. Prompt token limits, model choice and JSON parsing happen inside it.
- app/prompts/qa_prompt.py is not part of this model. `Conversations.QA_SYSTEM_PROMPT` is an unspecified constant.
- JWT verification and issuing (app/middlewares/auth.py, the tokens in app/routes/auth.py) are left out. The current user's id is a parameter. The string-versus-integer token identity between register and login is not modelled.
- Password hashing is the `Auth.Hasher` parameter. Salting and pbkdf2 are inside it.
- Email syntax checking by `fields.Email` is library behaviour and is not modelled.
- Marshmallow's handling of unknown fields and wrongly typed values is not modelled. A request field is either present with the declared type or absent.
- Validation failures get no HTTP status in the model. No handler for marshmallow's `ValidationError` exists, so with the error handlers registered, Flask passes the uncaught exception to the 500 handler. A refused body then most likely gets `{"error": "Internal server error", "status": 500}`, not the documented 400. The application factory in app/__init__.py registers no handlers at all.
- Transactions, session rollback and concurrent requests are left out. Each route runs alone on the store it is given. Two requests racing past one quota check are not modelled.
- Timestamps (`created_at`, `updated_at`) are not fields. Creation order is table order.
- `Text.Normalize` covers the ASCII part of `str.lower()` and `str.strip()` only. Unicode case mapping and Unicode whitespace are not modelled.
- The database's integer widths are not modelled: ids and counts are unbounded.
- Quota.CheckRateLimit models the rate limiter's documented contract, not three details of its code:
  - the code reads and writes `user.last_request_at`, but the user column is `last_request_date`;
  - it stores `datetime.utcnow()`, called on the `datetime` module, where it would be a timestamp rather than a date;
  - it returns the bare boolean `remaining > 0`, while its docstring and every caller unpack `(allowed, remaining)`.
- Auth.Register gives a new user the date the server loaded the user model (the `loadedOn` parameter) as its last request date, not the registration date. The column default `date.today()` is evaluated once, at import. Because the first check of any later day resets the count, this does not change the quota.
- Trending.GetTrending fixes one order for topics with equal counts. The database leaves that order open, and `Trending.IsTrending` admits every order.
- Ids are table positions, one less than the database's autoincrement ids. A request naming conversation 0, which the database never assigns and answers with "Conversation not found", reaches the model's first conversation instead. Ids shown in responses are likewise one less than the database's.
- Schemas.ShowUser shows the last request date. The response schema excludes `last_request_at`, which is not a column; the column is `last_request_date`. The model reads the bad name as inert, so the date is shown. The code may instead fail when the schema is built at import, because an excluded name matching no field can be refused. The comment and the neighbouring excludes suggest hiding the quota bookkeeping was intended.
- A user's `email` column holds 100 characters, but the register schema puts no length rule on it. `Auth.OverlongEmailAccepted` shows an over-long email being accepted. What the database then does with it is not modelled.
- Saved items' `topic` and `author` columns hold 200 characters, but the save schema bounds neither. `Favourites.OverlongTopicAccepted` shows an over-long topic being accepted. What the database then does with it is not modelled.
