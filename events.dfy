/**
 * Event acceptance: how an inbound Slack event becomes a task for the
 * worker pool (processMention and processDirectMessage in main.go), and the
 * records exchanged with the backend.
 */
module Events {
  import opened Wrappers
  import opened GoStrings

  /** The backend request body: JSON {user_id, query, channel_id}. */
  datatype ChatRequest = ChatRequest(userId: string, query: string, channelId: string)

  /**
   * One decoded backend record, used both for a stream record and for the
   * single-document reply; a field missing from the JSON decodes to its
   * zero value (0 or "").
   */
  datatype ChatResponse = ChatResponse(
    id: int,
    event: string,
    textChunk: string,
    status: string,
    fullResponse: string,
    error: string)

  /** The fields of a Slack app_mention event that the relay reads. */
  datatype AppMentionEvent = AppMentionEvent(user: string, channel: string, botId: string, text: string)

  /** The fields of a Slack message event that the relay reads. */
  datatype MessageEvent = MessageEvent(user: string, channel: string, botId: string, text: string, channelType: string)

  /**
   * What is handed to the worker pool: the arguments of processTask, that is
   * the event whose user and channel the reply goes to, and the query.
   */
  datatype Task = Task(event: AppMentionEvent, query: string)

  /** Size of the worker pool the relay starts. */
  const MaxWorkers: nat := 100

  /** Capacity of the pool's task queue: twice the number of workers. */
  const QueueCapacity: nat := 2 * MaxWorkers

  /** The channel type of a one-to-one conversation. */
  const DirectChannelType := "im"

  /** How a mention of the bot appears in the text of an event. */
  function MentionToken(botId: string): (r: string)
    ensures |r| == |botId| + 3 && r[0] == '<' && r[|r| - 1] == '>'
  {
    "<@" + botId + ">"
  }

  /** The query of a mention: every mention token removed, then both ends trimmed. */
  function CleanQuery(text: string, botId: string): (r: string)
    ensures Trimmed(r)
  {
    TrimSpace(ReplaceAll(text, MentionToken(botId), ""))
  }

  /**
   * processMention: a mention whose cleaned query is empty is dropped;
   * otherwise exactly one task is submitted, for the event itself and the
   * cleaned query, which is then non-empty and trimmed.
   */
  function ProcessMention(ev: AppMentionEvent): (t: Option<Task>)
    ensures t.None? <==> CleanQuery(ev.text, ev.botId) == []
    ensures t.Some? ==> t.value.event == ev && t.value.query == CleanQuery(ev.text, ev.botId)
    ensures t.Some? ==> t.value.query != [] && Trimmed(t.value.query)
  {
    var query := CleanQuery(ev.text, ev.botId);
    if query == [] then None else Some(Task(ev, query))
  }

  /**
   * processDirectMessage: accepted exactly when no bot sent it, its text is
   * non-empty and it comes from a one-to-one channel. The task's query is the
   * raw text, untrimmed, and its event keeps only the user, the channel and
   * the text.
   */
  function ProcessDirectMessage(ev: MessageEvent): (t: Option<Task>)
    ensures t.Some? <==> ev.botId == [] && ev.text != [] && ev.channelType == DirectChannelType
    ensures t.Some? ==> t.value.query == ev.text
    ensures t.Some? ==> t.value.event == AppMentionEvent(ev.user, ev.channel, [], ev.text)
  {
    if ev.botId != [] || ev.text == [] then None
    else if ev.channelType != DirectChannelType then None
    else Some(Task(AppMentionEvent(ev.user, ev.channel, [], ev.text), ev.text))
  }

  /** The request body processTask sends for a task. */
  function RequestFor(task: Task): (r: ChatRequest)
    ensures r.userId == task.event.user && r.channelId == task.event.channel
    ensures r.query == task.query
  {
    ChatRequest(task.event.user, task.query, task.event.channel)
  }

  // ---------------------------------------------------------------------
  // Properties of mention cleaning
  // ---------------------------------------------------------------------

  /** No piece of text runs into a following mention token. */
  predicate MentionFree(pieces: seq<string>, botId: string) {
    forall k :: 0 <= k < |pieces| ==> CleanBefore(pieces[k], MentionToken(botId))
  }

  /**
   * Mentions are removed wherever they stand, not only in front: text made
   * of mention-free pieces with mention tokens between them cleans to the
   * pieces laid end to end, trimmed.
   */
  lemma CleanQueryRemovesEveryMention(pieces: seq<string>, botId: string)
    requires MentionFree(pieces, botId)
    ensures CleanQuery(Join(pieces, MentionToken(botId)), botId) == TrimSpace(Concat(pieces))
  {
    ReplaceAllJoin(pieces, MentionToken(botId), []);
    JoinEmptyIsConcat(pieces);
  }

  /** A token at the start of the text is itself a clean position. */
  lemma CleanBeforeEmpty(pat: string)
    ensures CleanBefore([], pat)
  {
    assert [] + pat == pat;
    assert OccursAt(pat, pat, 0);
    IndexIs(pat, pat, 0);
  }

  /** Text without the token's first character holds no token. */
  lemma NoOccurrenceWithoutFirst(s: string, pat: string)
    requires pat != [] && forall j :: 0 <= j < |s| ==> s[j] != pat[0]
    ensures !Contains(s, pat)
  {
    forall k | 0 <= k <= |s| - |pat| ensures !OccursAt(s, pat, k) {
      assert s[k..k + |pat|][0] == s[k];
    }
  }

  /**
   * A leading mention followed by text with no '<' cleans to that text,
   * trimmed: the mention tests' "<@B456>   What is Go?" shape.
   */
  lemma CleanLeadingMention(botId: string, rest: string)
    requires forall j :: 0 <= j < |rest| ==> rest[j] != '<'
    ensures CleanQuery(MentionToken(botId) + rest, botId) == TrimSpace(rest)
  {
    var token := MentionToken(botId);
    CleanBeforeEmpty(token);
    assert [] + token + rest == token + rest;
    ReplaceAllAt([], token, rest, []);
    NoOccurrenceWithoutFirst(rest, token);
    assert [] + [] + rest == rest;
  }

  /** Cleaning the empty-query test's text: the token in front is removed. */
  lemma CleanBlankTestMention()
    ensures CleanQuery("<@B456>   ", "B456") == TrimSpace("   ")
  {
    assert "<@B456>   " == MentionToken("B456") + "   ";
    CleanLeadingMention("B456", "   ");
  }

  /** Cleaning the valid-query test's text: the token in front is removed. */
  lemma CleanQuestionTestMention()
    ensures CleanQuery("<@B456>   What is Go?", "B456") == TrimSpace("   What is Go?")
  {
    assert "<@B456>   What is Go?" == MentionToken("B456") + "   What is Go?";
    CleanLeadingMention("B456", "   What is Go?");
  }

  /** Trimming the empty-query test's remainder leaves nothing. */
  lemma TrimBlankRemainder()
    ensures TrimSpace("   ") == []
  {
    assert "   " == "   " + [] + [];
    assert IsSpace(' ');
    TrimSpaceOf("   ", [], []);
  }

  /** The valid-query test's question has no white space at either end. */
  lemma QuestionTrimmed()
    ensures Trimmed("What is Go?")
  {
    assert !IsSpace('W') && !IsSpace('?');
  }

  /** The tests' blanks are white space. */
  lemma ThreeBlanks()
    ensures AllSpace("   ")
  {
    assert IsSpace(' ');
  }

  /** Trimming the valid-query test's remainder leaves the question. */
  lemma TrimQuestionRemainder()
    ensures TrimSpace("   What is Go?") == "What is Go?"
  {
    assert "   What is Go?" == "   " + "What is Go?" + [];
    QuestionTrimmed();
    ThreeBlanks();
    TrimSpaceOf("   ", "What is Go?", []);
  }

  /** A mention of only the bot and blanks is dropped (main_test.go, empty query). */
  lemma BlankMentionDropped()
    ensures ProcessMention(AppMentionEvent("U123", "C123", "B456", "<@B456>   ")) == None
  {
    CleanBlankTestMention();
    TrimBlankRemainder();
  }

  /** A mention with a question is submitted with the question alone (main_test.go, valid query). */
  lemma QuestionMentionSubmitted()
    ensures ProcessMention(AppMentionEvent("U123", "C123", "B456", "<@B456>   What is Go?"))
         == Some(Task(AppMentionEvent("U123", "C123", "B456", "<@B456>   What is Go?"), "What is Go?"))
  {
    CleanQuestionTestMention();
    TrimQuestionRemainder();
  }

  /** In "<@" followed by a token, the first whole token starts at offset 2. */
  lemma IndexAfterOpening(botId: string)
    requires forall j :: 0 <= j < |botId| ==> botId[j] != '<'
    ensures Index("<@" + MentionToken(botId), MentionToken(botId)) == 2
  {
    var token := MentionToken(botId);
    var t := "<@" + token;
    assert t[2..] == token;
    assert OccursAt(t, token, 2);
    assert token[2] != '<';
    assert !OccursAt(t, token, 0) by { assert t[0..|token|][2] == t[2] == '<'; }
    assert !OccursAt(t, token, 1) by { assert t[1..1 + |token|][0] == t[1] == '@'; }
    IndexIs(t, token, 2);
  }

  /** Text without '<' is left alone by cleaning. */
  lemma ReplaceAllWithoutOpening(s: string, botId: string)
    requires forall j :: 0 <= j < |s| ==> s[j] != '<'
    ensures ReplaceAll(s, MentionToken(botId), []) == s
  {
    NoOccurrenceWithoutFirst(s, MentionToken(botId));
  }

  /** Cleaning "<@" + token + tail removes just the token, when the tail has no '<'. */
  lemma CleanAfterOpening(opening: string, token: string, tail: string, botId: string)
    requires opening == "<@" && token == MentionToken(botId)
    requires forall j :: 0 <= j < |tail| ==> tail[j] != '<'
    requires forall j :: 0 <= j < |botId| ==> botId[j] != '<'
    ensures ReplaceAll(opening + token + tail, token, []) == opening + tail
  {
    IndexAfterOpening(botId);
    ReplaceAllAt(opening, token, tail, []);
    ReplaceAllWithoutOpening(tail, botId);
    assert opening + [] + tail == opening + tail;
  }

  /**
   * ReplaceAll makes one pass, so a mention split by another mention of the
   * same bot comes back together: the cleaned text can still hold a mention.
   */
  lemma NestedMentionSurvives(botId: string)
    requires forall j :: 0 <= j < |botId| ==> botId[j] != '<'
    ensures ReplaceAll("<@" + MentionToken(botId) + botId + ">", MentionToken(botId), []) == MentionToken(botId)
  {
    var token, tail := MentionToken(botId), botId + ">";
    assert "<@" + token + botId + ">" == "<@" + token + tail;
    assert "<@" + tail == token;
    CleanAfterOpening("<@", token, tail, botId);
  }

  /** Whitespace-only direct messages are accepted, their query untrimmed. */
  lemma BlankDirectMessageAccepted(user: string, channel: string)
    ensures ProcessDirectMessage(MessageEvent(user, channel, [], "  ", DirectChannelType)).Some?
    ensures ProcessDirectMessage(MessageEvent(user, channel, [], "  ", DirectChannelType)).value.query == "  "
  {
  }

  /** The direct-message tests of main_test.go: a plain DM is taken; one from a bot or outside "im" is not. */
  lemma DirectMessageTests()
    ensures ProcessDirectMessage(MessageEvent("U1", "C1", [], "hello", "im"))
         == Some(Task(AppMentionEvent("U1", "C1", [], "hello"), "hello"))
    ensures ProcessDirectMessage(MessageEvent("U1", "C1", "B1", "hello", "im")) == None
    ensures ProcessDirectMessage(MessageEvent("U1", "C1", [], "hello", "channel")) == None
  {
  }
}
