/**
  The fixed system prompts and the user-prompt builders for the facts and
  quotes features. A user prompt is plain concatenation: a lead sentence,
  the topic as given, and the comment when there is one.
*/
module Prompts {
  import opened Base

  const FACTS_SYSTEM_PROMPT: string :=
    "You are a knowledgeable assistant that provides interesting and accurate facts.\nYou must respond in valid JSON format with this exact structure:\n{\n    \"facts\": [\n        \"fact 1 text here\",\n        \"fact 2 text here\",\n        \"fact 3 text here\",\n        \"fact 4 text here\",\n        \"fact 5 text here\"\n    ]\n}\nRules:\n- Always return exactly 5 facts\n- Each fact should be 1-2 sentences long\n- Facts should be accurate, interesting, related to the topic, and not too common or obvious\n- No numbering or bullet points in the fact text itself\n"

  const QUOTES_SYSTEM_PROMPT: string :=
    "You are a knowledgeable assistant that provides meaningful and accurate quotes.\nYou must respond in valid JSON format with this exact structure:\n{\n    \"quotes\": [\n        {\n            \"text\": \"the quote text here\",\n            \"author\": \"Person's Name\"\n        },\n        {\n            \"text\": \"another quote here\",\n            \"author\": \"Another Person\"\n        }\n    ]\n}\nRules:\n- Always return exactly 5 quotes\n- Each quote must include the actual author (if present, otherwise use \"Unknown\")\n- Quotes should be real and accurately attributed\n- If a quote's author is truly unknown, use \"Unknown\"\n- Do not make up fake attributions\n"

  /** The two fixed system prompts. A route names the one it sends; the
      text is what the completion service receives. Both are constants: no
      request input reaches them. */
  datatype SystemPrompt = FactsSystem | QuotesSystem {
    function Text(): string {
      match this
      case FactsSystem => FACTS_SYSTEM_PROMPT
      case QuotesSystem => QUOTES_SYSTEM_PROMPT
    }
  }

  const FACTS_LEAD: string := "Give me 5 interesting facts about: "
  const QUOTES_LEAD: string := "Give me 5 meaningful quotes about: "
  /** The line that introduces the user's comment, after a line break. */
  const INSTRUCTION_LEAD: string := "\n" + "Additional instruction provided by the user: "

  /** Python truthiness: a comment that is `None` or empty is no comment. */
  function Instruction(comment: Option<string>): (r: Option<string>)
    ensures r.Some? <==> comment.Some? && comment.value != ""
    ensures r.Some? ==> r == comment
  {
    if comment.Some? && comment.value != "" then comment else None
  }

  /** `lead + topic`, then the instruction line when there is a comment. */
  function BuildPrompt(lead: string, topic: string, comment: Option<string>): (p: string)
    ensures lead + topic <= p
    ensures Instruction(comment).None? ==> p == lead + topic
    ensures Instruction(comment).Some? ==> p == lead + topic + INSTRUCTION_LEAD + comment.value
  {
    var p := lead + topic;
    if Instruction(comment).Some? then p + INSTRUCTION_LEAD + comment.value else p
  }

  /** `build_facts_prompt`. */
  function BuildFactsPrompt(topic: string, comment: Option<string>): (p: string)
    ensures FACTS_LEAD + topic <= p
    ensures Instruction(comment).None? ==> p == FACTS_LEAD + topic
    ensures Instruction(comment).Some? ==> p == FACTS_LEAD + topic + INSTRUCTION_LEAD + comment.value
  {
    BuildPrompt(FACTS_LEAD, topic, comment)
  }

  /** `build_quotes_prompt`. */
  function BuildQuotesPrompt(topic: string, comment: Option<string>): (p: string)
    ensures QUOTES_LEAD + topic <= p
    ensures Instruction(comment).None? ==> p == QUOTES_LEAD + topic
    ensures Instruction(comment).Some? ==> p == QUOTES_LEAD + topic + INSTRUCTION_LEAD + comment.value
  {
    BuildPrompt(QUOTES_LEAD, topic, comment)
  }

  /** The position of the first line break in `s`, if any. */
  function FirstBreak(s: string): (r: Option<nat>)
    ensures r.Some? ==> r.value < |s| && s[r.value] == '\n'
    ensures r.Some? ==> forall i :: 0 <= i < r.value ==> s[i] != '\n'
    ensures r.None? ==> forall i :: 0 <= i < |s| ==> s[i] != '\n'
  {
    if |s| == 0 then None
    else if s[0] == '\n' then Some(0)
    else match FirstBreak(s[1..])
      case None => None
      case Some(k) => Some(k + 1)
  }

  /** Reads a user prompt back into its topic and its comment: the topic runs
      from the lead to the first line break, and the instruction line, if
      any, must follow it and hold a non-empty comment. */
  function ParsePrompt(lead: string, p: string): Option<(string, Option<string>)> {
    if !(lead <= p) then None
    else
      var rest := p[|lead|..];
      match FirstBreak(rest)
      case None => Some((rest, None))
      case Some(k) =>
        var tail := rest[k..];
        if INSTRUCTION_LEAD <= tail && |tail| > |INSTRUCTION_LEAD|
        then Some((rest[..k], Some(tail[|INSTRUCTION_LEAD|..])))
        else None
  }

  /** The break search skips a break-free prefix. */
  lemma {:induction false} FirstBreakAfter(a: string, b: string)
    requires forall i :: 0 <= i < |a| ==> a[i] != '\n'
    ensures FirstBreak(a + b) == (match FirstBreak(b) case None => None case Some(k) => Some(|a| + k))
    decreases |a|
  {
    if |a| == 0 {
      assert a + b == b;
    } else {
      assert (a + b)[0] == a[0];
      assert (a + b)[1..] == a[1..] + b;
      FirstBreakAfter(a[1..], b);
    }
  }

  /** For a topic without line breaks, the prompt gives back exactly the
      topic and the effective comment: the builder loses nothing. */
  lemma ParseBuildRoundTrip(lead: string, topic: string, comment: Option<string>)
    requires forall i :: 0 <= i < |topic| ==> topic[i] != '\n'
    ensures ParsePrompt(lead, BuildPrompt(lead, topic, comment)) == Some((topic, Instruction(comment)))
  {
    var p := BuildPrompt(lead, topic, comment);
    assert lead <= p;
    var rest := p[|lead|..];
    match Instruction(comment)
    case None =>
      assert rest == topic;
      FirstBreakAfter(topic, []);
      assert topic + [] == topic;
    case Some(c) =>
      var tail := INSTRUCTION_LEAD + c;
      assert rest == topic + tail;
      FirstBreakAfter(topic, tail);
      assert INSTRUCTION_LEAD[0] == '\n';
      assert tail[0] == INSTRUCTION_LEAD[0];
      assert FirstBreak(tail) == Some(0);
      assert rest[|topic|..] == tail;
      assert rest[..|topic|] == topic;
      assert tail[|INSTRUCTION_LEAD|..] == c;
  }

  /** Two newline-free topics give the same facts prompt only when topics
      and effective comments agree. */
  lemma FactsPromptInjective(t1: string, c1: Option<string>, t2: string, c2: Option<string>)
    requires forall i :: 0 <= i < |t1| ==> t1[i] != '\n'
    requires forall i :: 0 <= i < |t2| ==> t2[i] != '\n'
    requires BuildFactsPrompt(t1, c1) == BuildFactsPrompt(t2, c2)
    ensures t1 == t2 && Instruction(c1) == Instruction(c2)
  {
    ParseBuildRoundTrip(FACTS_LEAD, t1, c1);
    ParseBuildRoundTrip(FACTS_LEAD, t2, c2);
  }

  /** Two newline-free topics give the same quotes prompt only when topics
      and effective comments agree. */
  lemma QuotesPromptInjective(t1: string, c1: Option<string>, t2: string, c2: Option<string>)
    requires forall i :: 0 <= i < |t1| ==> t1[i] != '\n'
    requires forall i :: 0 <= i < |t2| ==> t2[i] != '\n'
    requires BuildQuotesPrompt(t1, c1) == BuildQuotesPrompt(t2, c2)
    ensures t1 == t2 && Instruction(c1) == Instruction(c2)
  {
    ParseBuildRoundTrip(QUOTES_LEAD, t1, c1);
    ParseBuildRoundTrip(QUOTES_LEAD, t2, c2);
  }
}
