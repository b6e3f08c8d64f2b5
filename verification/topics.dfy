/**
  The facts and quotes routes. Both run one pipeline: load the request,
  check the quota, build the prompt, call the completion service, and only
  after it succeeded increment the quota and then record the search.
*/
module TopicQuery {
  import opened Base
  import opened Text
  import opened Errors
  import opened Models
  import opened Gateway
  import opened Db
  import opened Quota
  import opened Schemas
  import opened Prompts

  datatype Feature = Facts | Quotes

  /** The feature tag stored with a search, and the key of the reply's list. */
  function Tag(f: Feature): (tag: string)
    ensures tag in {"facts", "quotes"}
  {
    match f
    case Facts => "facts"
    case Quotes => "quotes"
  }

  function SystemFor(f: Feature): SystemPrompt {
    match f
    case Facts => FactsSystem
    case Quotes => QuotesSystem
  }

  function UserPrompt(f: Feature, topic: string, comment: Option<string>): string {
    match f
    case Facts => BuildFactsPrompt(topic, comment)
    case Quotes => BuildQuotesPrompt(topic, comment)
  }

  function SuccessMessage(f: Feature): string {
    match f
    case Facts => "Facts retrieved successfully"
    case Quotes => "Quotes retrieved successfully"
  }

  /** The prompt pair sent to the structured completion entry point. */
  datatype Prompt = Prompt(system: SystemPrompt, user: string)

  /** The success body: message, the requested list, the quota left today. */
  datatype TopicReply = TopicReply(message: string, items: Json, remainingRequests: int)

  /** `result.get(key, [])`. */
  function ListAt(result: map<string, Json>, key: string): (j: Json)
    ensures key in result ==> j == result[key]
    ensures key !in result ==> j == Array([])
  {
    if key in result then result[key] else Array([])
  }

  /** The search record a successful request appends. */
  function SearchRecord(me: nat, topic: string, f: Feature): (s: SearchedItem)
    ensures s.userId == me && s.topic == Normalize(topic) && s.feature == Tag(f)
  {
    SearchedItem(me, Normalize(topic), Tag(f))
  }

  /** After a completion answered: charge user `me`, then record the
      search, and nothing else. */
  function ChargeAndRecord(t: Trace, me: nat, record: SearchedItem): (t': Trace)
    requires t.Valid() && me < |t.after.users|
    ensures t'.Valid() && t'.before == t.before
    ensures t'.writes == t.writes + [PutUser(me, IncrementRequestCount(t.after.users[me])), AddSearch(record)]
    ensures t'.after == t.after.(users := t.after.users[me := IncrementRequestCount(t.after.users[me])],
                                 searches := t.after.searches + [record])
  {
    Commit(IncrementStored(t, me), AddSearch(record))
  }

  /** From a granted quota check on: ask for the items, then charge user
      `me` and record the search. */
  function Ask(t: Trace, me: nat, data: TopicData, f: Feature, complete: Structured)
    : (x: Exchange<TopicReply, Prompt>)
    requires t.Valid() && me < |t.after.users|
    ensures x.trace.Valid() && x.trace.before == t.before
    ensures x.asked == Some(Prompt(SystemFor(f), UserPrompt(f, data.topic, data.comment)))
    ensures complete(x.asked.value.system, x.asked.value.user).Failed? ==>
      && x.result == Err(AppFailure(AppError(complete(x.asked.value.system, x.asked.value.user).message, 500)))
      && x.trace == t
    ensures x.result.Ok? <==> complete(x.asked.value.system, x.asked.value.user).Answer?
    ensures x.result.Ok? ==>
      && x.trace.writes == t.writes
           + [PutUser(me, IncrementRequestCount(t.after.users[me])), AddSearch(SearchRecord(me, data.topic, f))]
      && x.trace.after == t.after.(users := t.after.users[me := IncrementRequestCount(t.after.users[me])],
                                   searches := t.after.searches + [SearchRecord(me, data.topic, f)])
      && x.result.value.message == SuccessMessage(f)
      && x.result.value.items == ListAt(complete(x.asked.value.system, x.asked.value.user).value, Tag(f))
      && x.result.value.remainingRequests == DAILY_LIMIT - x.trace.after.users[me].dailyRequestCount
  {
    var prompt := Prompt(SystemFor(f), UserPrompt(f, data.topic, data.comment));
    var answer := complete(prompt.system, prompt.user);
    if answer.Failed? then
      Exchange(AsOpenAIError(answer), t, Some(prompt))
    else
      var t2 := ChargeAndRecord(t, me, SearchRecord(me, data.topic, f));
      var reply := TopicReply(SuccessMessage(f), ListAt(answer.value, Tag(f)),
                              DAILY_LIMIT - t2.after.users[me].dailyRequestCount);
      Exchange(Ok(reply), t2, Some(prompt))
  }

  /** The shared pipeline of `get_facts` and `get_quotes`, for user `me`. */
  function HandleTopic(st: Store, me: nat, raw: TopicRequest, today: Day, f: Feature, complete: Structured)
    : (x: Exchange<TopicReply, Prompt>)
    requires me < |st.users|
    ensures x.trace.Valid() && x.trace.before == st
    // a refused body: nothing happens at all
    ensures LoadTopicRequest(raw).Err? ==>
      x.result == Err(LoadTopicRequest(raw).failure) && x.trace.writes == [] && x.asked == None
    // quota exhausted: RateLimitError, no call, no write
    ensures LoadTopicRequest(raw).Ok? && !CheckRateLimit(st.users[me], today).0.allowed ==>
      && x.result == Throw(RateLimited, "Daily request limit reached")
      && x.trace.writes == [] && x.trace.after == st && x.asked == None
    // otherwise the prompt is built from the topic as given, not normalised
    ensures LoadTopicRequest(raw).Ok? && CheckRateLimit(st.users[me], today).0.allowed ==>
      x.asked == Some(Prompt(SystemFor(f), UserPrompt(f, raw.topic.value, raw.comment)))
    // completion failure: OpenAIError, only the check's reset persisted
    ensures x.asked.Some? && complete(x.asked.value.system, x.asked.value.user).Failed? ==>
      && x.result == Err(AppFailure(AppError(complete(x.asked.value.system, x.asked.value.user).message, 500)))
      && x.trace.writes == ResetWrites(st, me, today)
      && x.trace.after == st.(users := st.users[me := Checked(st, me, today)])
    // success: increment, then the search record, and nothing else
    ensures x.result.Ok? <==> x.asked.Some? && complete(x.asked.value.system, x.asked.value.user).Answer?
    ensures x.result.Ok? ==>
      && x.trace.writes == ResetWrites(st, me, today)
           + [PutUser(me, IncrementRequestCount(Checked(st, me, today))), AddSearch(SearchRecord(me, raw.topic.value, f))]
      && x.trace.after == st.(users := st.users[me := IncrementRequestCount(Checked(st, me, today))],
                              searches := st.searches + [SearchRecord(me, raw.topic.value, f)])
      && x.result.value.message == SuccessMessage(f)
      && x.result.value.items == ListAt(complete(x.asked.value.system, x.asked.value.user).value, Tag(f))
      && x.result.value.remainingRequests == DAILY_LIMIT - x.trace.after.users[me].dailyRequestCount
  {
    match LoadTopicRequest(raw)
    case Err(failure) => Exchange(Err(failure), Begin(st), None)
    case Ok(data) =>
      var (verdict, t) := CheckStored(Begin(st), me, today);
      CheckedStore(st, me, today);
      if !verdict.allowed then
        Exchange(Throw(RateLimited, "Daily request limit reached"), t, None)
      else
        UpdateTwice(st.users, me, Checked(st, me, today), IncrementRequestCount(Checked(st, me, today)));
        Ask(t, me, data, f, complete)
  }

  /** `get_facts`: the pipeline with the facts system prompt, the facts
      lead sentence, the "facts" tag and the "facts" list. */
  function GetFacts(st: Store, me: nat, raw: TopicRequest, today: Day, complete: Structured)
    : (x: Exchange<TopicReply, Prompt>)
    requires me < |st.users|
    ensures x.trace.Valid() && x.trace.before == st
    ensures x.asked.Some? ==>
      raw.topic.Some? && x.asked.value == Prompt(FactsSystem, BuildFactsPrompt(raw.topic.value, raw.comment))
    ensures x.result.Ok? ==>
      && raw.topic.Some? && x.asked.Some? && complete(FactsSystem, x.asked.value.user).Answer?
      && |x.trace.after.users| == |st.users|
      && x.trace.after.searches == st.searches + [SearchedItem(me, Normalize(raw.topic.value), "facts")]
      && x.trace.after.users[me].dailyRequestCount == Checked(st, me, today).dailyRequestCount + 1
      && x.result.value.items == ListAt(complete(FactsSystem, x.asked.value.user).value, "facts")
      && x.result.value.remainingRequests == DAILY_LIMIT - x.trace.after.users[me].dailyRequestCount
    ensures x.result.Err? ==> x.trace.after.searches == st.searches
    // the quota: a refused body changes nothing; otherwise one check, and
    // a charge exactly when the request succeeded
    ensures LoadTopicRequest(raw).Err? ==> x.trace.after == st
    ensures LoadTopicRequest(raw).Ok? ==>
      && |x.trace.after.users| == |st.users|
      && x.trace.after.users[me] == Serve(st.users[me], Attempt(today, x.result.Ok?))
      && forall i :: 0 <= i < |st.users| && i != me ==> x.trace.after.users[i] == st.users[i]
  {
    var x := HandleTopic(st, me, raw, today, Facts, complete);
    if LoadTopicRequest(raw).Ok? then
      TopicFollowsQuotaProtocol(st, me, raw, today, Facts, complete);
      x
    else
      x
  }

  /** `get_quotes`: the pipeline with the quotes system prompt, the quotes
      lead sentence, the "quotes" tag and the "quotes" list. */
  function GetQuotes(st: Store, me: nat, raw: TopicRequest, today: Day, complete: Structured)
    : (x: Exchange<TopicReply, Prompt>)
    requires me < |st.users|
    ensures x.trace.Valid() && x.trace.before == st
    ensures x.asked.Some? ==>
      raw.topic.Some? && x.asked.value == Prompt(QuotesSystem, BuildQuotesPrompt(raw.topic.value, raw.comment))
    ensures x.result.Ok? ==>
      && raw.topic.Some? && x.asked.Some? && complete(QuotesSystem, x.asked.value.user).Answer?
      && |x.trace.after.users| == |st.users|
      && x.trace.after.searches == st.searches + [SearchedItem(me, Normalize(raw.topic.value), "quotes")]
      && x.trace.after.users[me].dailyRequestCount == Checked(st, me, today).dailyRequestCount + 1
      && x.result.value.items == ListAt(complete(QuotesSystem, x.asked.value.user).value, "quotes")
      && x.result.value.remainingRequests == DAILY_LIMIT - x.trace.after.users[me].dailyRequestCount
    ensures x.result.Err? ==> x.trace.after.searches == st.searches
    // the quota: a refused body changes nothing; otherwise one check, and
    // a charge exactly when the request succeeded
    ensures LoadTopicRequest(raw).Err? ==> x.trace.after == st
    ensures LoadTopicRequest(raw).Ok? ==>
      && |x.trace.after.users| == |st.users|
      && x.trace.after.users[me] == Serve(st.users[me], Attempt(today, x.result.Ok?))
      && forall i :: 0 <= i < |st.users| && i != me ==> x.trace.after.users[i] == st.users[i]
  {
    var x := HandleTopic(st, me, raw, today, Quotes, complete);
    if LoadTopicRequest(raw).Ok? then
      TopicFollowsQuotaProtocol(st, me, raw, today, Quotes, complete);
      x
    else
      x
  }

  /** The quota side of a topic request that passed validation is exactly one
      `Serve` step: counted only when the completion succeeded. No other
      user's record changes. */
  lemma TopicFollowsQuotaProtocol(st: Store, me: nat, raw: TopicRequest, today: Day, f: Feature, complete: Structured)
    requires me < |st.users|
    requires LoadTopicRequest(raw).Ok?
    ensures var x := HandleTopic(st, me, raw, today, f, complete);
      && |x.trace.after.users| == |st.users|
      && x.trace.after.users[me] == Serve(st.users[me], Attempt(today, x.result.Ok?))
      && (forall i :: 0 <= i < |st.users| && i != me ==> x.trace.after.users[i] == st.users[i])
  {
  }

  /** No topic request takes any user past the daily limit. */
  lemma TopicKeepsQuotaWithinLimit(st: Store, me: nat, raw: TopicRequest, today: Day, f: Feature, complete: Structured)
    requires me < |st.users|
    requires QuotaWithinLimit(st)
    ensures QuotaWithinLimit(HandleTopic(st, me, raw, today, f, complete).trace.after)
  {
    var x := HandleTopic(st, me, raw, today, f, complete);
    if x.result.Ok? {
      ChargeWithinLimit(st, me, today);
    } else if LoadTopicRequest(raw).Ok? {
      CheckWithinLimit(st, me, today);
    }
  }

  /** Every recorded search fits its table: a topic of at most 200
      characters stays within 200 once normalised, and the tag is one of the
      two features. */
  lemma TopicKeepsSearchesFitting(st: Store, me: nat, raw: TopicRequest, today: Day, f: Feature, complete: Structured)
    requires me < |st.users|
    requires forall i :: 0 <= i < |st.searches| ==> SearchedItemFits(st.searches[i])
    ensures var after := HandleTopic(st, me, raw, today, f, complete).trace.after;
      forall i :: 0 <= i < |after.searches| ==> SearchedItemFits(after.searches[i])
  {
  }
}
