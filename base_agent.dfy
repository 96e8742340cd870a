/** What every stage shares (agents/base_agent.py): the language-model
    reply, its token count, the running token totals and the message list
    sent to the model; and the fence stripping the two judging stages apply
    to a reply before decoding it as JSON. */
module BaseAgent {
  import opened Wrappers
  import opened Text
  import opened InterviewState

  /** Gemini-style usage counts. */
  datatype UsageMetadata = UsageMetadata(promptTokenCount: Option<nat>, candidatesTokenCount: Option<nat>)

  /** `response_metadata`: an OpenAI-style `token_usage.total_tokens` and
      optionally Gemini-style usage counts. */
  datatype Metadata = Metadata(totalTokens: Option<nat>, usageMetadata: Option<UsageMetadata>)

  /** A model reply: its text and, when the client attaches one, its metadata. */
  datatype Reply = Reply(content: string, metadata: Option<Metadata>)

  /** The fields of a decoded JSON verdict the stages read. */
  datatype Verdict = Verdict(passed: Option<bool>, depthSufficient: Option<bool>, feedback: Option<string>)

  /** `json.loads`: `None` stands for a `JSONDecodeError`. */
  type Decoder = string -> Option<Verdict>

  /** The language model as one stage sees it: the reply it gives to the
      prompt built from the record as it stands when the stage calls it. */
  type Model = State -> Reply

  datatype Message = SystemMessage(content: string) | HumanMessage(content: string)

  /** The tokens a reply is charged: the reported total when it is
      non-zero, else the Gemini prompt plus candidate counts when those are
      present and non-zero, else a quarter of the reply's length; a reply
      with no metadata at all is charged nothing. */
  function TokenCount(reply: Reply): (n: nat)
    ensures reply.metadata.None? ==> n == 0
    ensures reply.metadata.Some? && reply.metadata.value.totalTokens.GetOr(0) != 0 ==>
      n == reply.metadata.value.totalTokens.value
    ensures (reply.metadata.Some? && reply.metadata.value.totalTokens.GetOr(0) == 0 &&
             UsageTotal(reply.metadata.value) != 0) ==> n == UsageTotal(reply.metadata.value)
    ensures (reply.metadata.Some? && reply.metadata.value.totalTokens.GetOr(0) == 0 &&
             UsageTotal(reply.metadata.value) == 0) ==> n == |reply.content| / 4
    ensures reply.metadata.Some? ==>
      (n == 0 <==> (|reply.content| < 4 && reply.metadata.value.totalTokens.GetOr(0) == 0 &&
                    UsageTotal(reply.metadata.value) == 0))
  {
    match reply.metadata
    case None => 0
    case Some(m) =>
      var reported := m.totalTokens.GetOr(0);
      var tokens := if reported == 0 then UsageTotal(m) else reported;
      if tokens == 0 then |reply.content| / 4 else tokens
  }

  /** The Gemini count, zero when absent. */
  function UsageTotal(m: Metadata): nat {
    match m.usageMetadata
    case None => 0
    case Some(u) => u.promptTokenCount.GetOr(0) + u.candidatesTokenCount.GetOr(0)
  }

  /** `track_tokens`: records the reply's count as the last message's and
      adds it to the running total; nothing else changes. */
  function TrackTokens(st: State, reply: Reply): (r: State)
    ensures r.lastMessageTokens == TokenCount(reply)
    ensures r.totalTokens == st.totalTokens + r.lastMessageTokens
    ensures r.(lastMessageTokens := st.lastMessageTokens, totalTokens := st.totalTokens) == st
  {
    var tokens := TokenCount(reply);
    st.(lastMessageTokens := tokens, totalTokens := st.totalTokens + tokens)
  }

  /** The message list `invoke_llm` sends: the system message only when it
      is non-empty, then the prompt as the human message. */
  method BuildMessages(system: string, prompt: string) returns (messages: seq<Message>)
    ensures |messages| == if system == "" then 1 else 2
    ensures messages[|messages| - 1] == HumanMessage(prompt)
    ensures system != "" ==> messages[0] == SystemMessage(system)
    ensures forall k :: 0 <= k < |messages| - 1 ==> messages[k].SystemMessage?
  {
    messages := [];
    if system != "" {
      messages := messages + [SystemMessage(system)];
    }
    messages := messages + [HumanMessage(prompt)];
  }

  /** The text handed to the JSON decoder: the stripped reply without a
      leading "```json" or "```" fence and a trailing "```", stripped again. */
  function StripFences(content: string): (r: string)
    ensures Trimmed(r)
  {
    var t0 := Strip(content);
    var t1 := if StartsWith(t0, "```json") then t0[7..] else t0;
    var t2 := if StartsWith(t1, "```") then t1[3..] else t1;
    var t3 := if EndsWith(t2, "```") then t2[..|t2| - 3] else t2;
    Strip(t3)
  }

  /** A string that begins and ends with a non-space is its own strip. */
  lemma StripUnpadded(s: string)
    requires s != [] && !IsSpace(s[0]) && !IsSpace(s[|s| - 1])
    ensures Strip(s) == s
  {
    assert TrimStart(s) == s;
  }

  /** A JSON body wrapped in a "```json" block is decoded as the body
      itself, up to surrounding whitespace. */
  lemma StripFencesOfJsonBlock(body: string)
    ensures StripFences("```json\n" + body + "\n```") == Strip(body)
  {
    JsonFenceShape(body);
    JsonFenceSteps("```json\n" + body + "\n```", "\n" + body + "\n```", "\n" + body + "\n");
    StripPadded("\n", body, "\n");
  }

  lemma JsonFenceShape(body: string)
    ensures var content := "```json\n" + body + "\n```"; var t1 := "\n" + body + "\n```";
      && Strip(content) == content && StartsWith(content, "```json") && content[7..] == t1
      && !StartsWith(t1, "```") && EndsWith(t1, "```") && t1[..|t1| - 3] == "\n" + body + "\n"
  {
    var content := "```json\n" + body + "\n```";
    var t1 := "\n" + body + "\n```";
    StripUnpadded(content);
    assert content[7..] == t1;
    assert t1[0] == '\n';
    assert t1[..|t1| - 3] == "\n" + body + "\n";
  }

  /** The steps of `StripFences` on a trimmed reply with a "```json"
      opening fence and a closing fence. */
  lemma JsonFenceSteps(content: string, t1: string, t3: string)
    requires Strip(content) == content && StartsWith(content, "```json") && content[7..] == t1
    requires !StartsWith(t1, "```") && EndsWith(t1, "```") && t1[..|t1| - 3] == t3
    ensures StripFences(content) == Strip(t3)
  {
  }

  /** A body wrapped in a bare "```" block is decoded as the body itself,
      up to surrounding whitespace. */
  lemma StripFencesOfBareBlock(body: string)
    ensures StripFences("```\n" + body + "\n```") == Strip(body)
  {
    BareFenceShape(body);
    BareFenceSteps("```\n" + body + "\n```", "\n" + body + "\n```", "\n" + body + "\n");
    StripPadded("\n", body, "\n");
  }

  lemma BareFenceShape(body: string)
    ensures var content := "```\n" + body + "\n```"; var t2 := "\n" + body + "\n```";
      && Strip(content) == content && !StartsWith(content, "```json")
      && StartsWith(content, "```") && content[3..] == t2
      && EndsWith(t2, "```") && t2[..|t2| - 3] == "\n" + body + "\n"
  {
    var content := "```\n" + body + "\n```";
    var t2 := "\n" + body + "\n```";
    StripUnpadded(content);
    assert content[3] == '\n';
    assert content[3..] == t2;
    assert t2[..|t2| - 3] == "\n" + body + "\n";
  }

  /** The steps of `StripFences` on a trimmed reply with a bare opening
      fence and a closing fence. */
  lemma BareFenceSteps(content: string, t2: string, t3: string)
    requires Strip(content) == content && !StartsWith(content, "```json")
    requires StartsWith(content, "```") && content[3..] == t2
    requires EndsWith(t2, "```") && t2[..|t2| - 3] == t3
    ensures StripFences(content) == Strip(t3)
  {
  }

  /** A reply with no fence at either end is only stripped. */
  lemma StripFencesUnfenced(content: string)
    requires !StartsWith(Strip(content), "```") && !EndsWith(Strip(content), "```")
    ensures StripFences(content) == Strip(content)
  {
    var t0 := Strip(content);
    assert !StartsWith(t0, "```json") by {
      if |t0| >= 7 { assert t0[..3] == t0[..7][..3]; }
    }
    StripIdempotent(content);
  }
}
