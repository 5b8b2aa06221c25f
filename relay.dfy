/**
 * processTask (main.go) end to end: the request for a task is sent with
 * retries, and the reply, or the fallback notice, is posted to the task's
 * channel. The chat API is a client object that records every message
 * posted, in order; the half-second pause after each relayed message is
 * counted rather than slept.
 */
module Relay {
  import opened Wrappers
  import opened GoStrings
  import opened Events
  import opened Backend
  import opened Normalize

  /** One outbound chat message: where it goes and what it says. */
  datatype Post = Post(channel: string, text: string)

  /** Posted when no attempt reaches the backend. */
  const UnavailableText := "Service unavailable, please try later"

  /** The chat API as the relay uses it: it only posts messages. */
  class SlackClient {
    var posts: seq<Post>

    constructor()
      ensures posts == []
    {
      posts := [];
    }

    method PostMessage(channel: string, text: string)
      modifies this
      ensures posts == old(posts) + [Post(channel, text)]
    {
      posts := posts + [Post(channel, text)];
    }
  }

  /** Each text as a message to `channel`, in order. */
  function PostsTo(channel: string, texts: seq<string>): (r: seq<Post>)
    ensures |r| == |texts|
    ensures forall k :: 0 <= k < |r| ==> r[k] == Post(channel, texts[k])
  {
    if texts == [] then [] else [Post(channel, texts[0])] + PostsTo(channel, texts[1..])
  }

  lemma PostsToAppend(channel: string, a: seq<string>, b: seq<string>)
    ensures PostsTo(channel, a + b) == PostsTo(channel, a) + PostsTo(channel, b)
  {
    var l, r := PostsTo(channel, a + b), PostsTo(channel, a) + PostsTo(channel, b);
    assert |l| == |r|;
    forall k | 0 <= k < |l| ensures l[k] == r[k] {
      if k < |a| {
        assert (a + b)[k] == a[k];
      } else {
        assert (a + b)[k] == b[k - |a|];
      }
    }
  }

  /** The texts a connected reply yields: the stream or the document reading, by Content-Type. */
  function ResponseTexts(resp: HttpResponse, decode: Decoder): seq<string>
  {
    match Route(resp.contentType)
    case Stream => StreamTexts(resp.lines, decode)
    case Document => DocumentTexts(resp.document)
  }

  /**
   * Everything processTask posts for a task: the fallback notice alone when
   * all three attempts fail, else the texts of the reply, all to the task's
   * channel.
   */
  function TaskPosts(task: Task, dial: Dialer, decode: Decoder): seq<Post>
  {
    var c := Connect(RequestFor(task), dial);
    match c.response
    case None => [Post(task.event.channel, UnavailableText)]
    case Some(resp) => PostsTo(task.event.channel, ResponseTexts(resp, decode))
  }

  // ---------------------------------------------------------------------
  // The relay loops
  // ---------------------------------------------------------------------

  /** The texts of a stream's first i + 1 lines: those of the first i, then the line's own. */
  lemma StreamStep(lines: seq<string>, i: nat, decode: Decoder)
    requires i < |lines|
    ensures StreamTexts(lines[..i + 1], decode) == StreamTexts(lines[..i], decode) + Emit(LineText(lines[i], decode))
  {
    assert lines[..i + 1] == lines[..i] + [lines[i]];
    assert [lines[i]] + [] == [lines[i]];
    StreamTextsAppend(lines[..i], [lines[i]], decode);
    StreamTextsCons(lines[i], [], decode);
  }

  /** Posting one more text extends the messages by one. */
  lemma PostsToSnoc(channel: string, texts: seq<string>, text: string)
    ensures PostsTo(channel, texts + [text]) == PostsTo(channel, texts) + [Post(channel, text)]
  {
    PostsToAppend(channel, texts, [text]);
  }

  /**
   * The stream branch: every line is read to the end of the body; each
   * message part is posted as it arrives, followed by a pause.
   */
  method RelayStream(client: SlackClient, channel: string, lines: seq<string>, decode: Decoder)
    returns (pauses: nat)
    modifies client
    ensures client.posts == old(client.posts) + PostsTo(channel, StreamTexts(lines, decode))
    ensures pauses == |StreamTexts(lines, decode)|
  {
    pauses := 0;
    ghost var sent: seq<string> := [];
    var i := 0;
    while i < |lines|
      invariant 0 <= i <= |lines|
      invariant sent == StreamTexts(lines[..i], decode)
      invariant client.posts == old(client.posts) + PostsTo(channel, sent)
      invariant pauses == |sent|
    {
      var line := lines[i];
      StreamStep(lines, i, decode);
      if HasPrefix(line, DataPrefix) {
        match decode(TrimPrefix(line, DataPrefix))
        case Some(msg) =>
          if msg.event == MessagePartEvent {
            client.PostMessage(channel, msg.textChunk);
            pauses := pauses + 1;
            PostsToSnoc(channel, sent, msg.textChunk);
            sent := sent + [msg.textChunk];
          }
        case None =>
      }
      i := i + 1;
    }
    assert lines[..i] == lines;
  }

  /**
   * The messages of a document's first i + 1 pieces: those of the first i,
   * then the piece trimmed, unless nothing is left of it.
   */
  lemma DocumentStep(pieces: seq<string>, i: nat)
    requires i < |pieces|
    ensures var chunk := TrimSpace(pieces[i]);
      TrimmedNonEmpty(pieces[..i + 1]) == TrimmedNonEmpty(pieces[..i]) + (if chunk == [] then [] else [chunk])
  {
    assert pieces[..i + 1] == pieces[..i] + [pieces[i]];
    assert [pieces[i]] + [] == [pieces[i]];
    FlatMapAppend(KeepChunk, pieces[..i], [pieces[i]]);
    FlatMapCons(KeepChunk, pieces[i], []);
  }

  /** The loop over the pieces of a document: each piece that is not blank is posted trimmed. */
  method RelayPieces(client: SlackClient, channel: string, chunks: seq<string>)
    returns (pauses: nat)
    modifies client
    ensures client.posts == old(client.posts) + PostsTo(channel, TrimmedNonEmpty(chunks))
    ensures pauses == |TrimmedNonEmpty(chunks)|
  {
    pauses := 0;
    ghost var sent: seq<string> := [];
    var i := 0;
    while i < |chunks|
      invariant 0 <= i <= |chunks|
      invariant sent == TrimmedNonEmpty(chunks[..i])
      invariant client.posts == old(client.posts) + PostsTo(channel, sent)
      invariant pauses == |sent|
    {
      var chunk := TrimSpace(chunks[i]);
      DocumentStep(chunks, i);
      if chunk != [] {
        client.PostMessage(channel, chunk);
        pauses := pauses + 1;
        PostsToSnoc(channel, sent, chunk);
        sent := sent + [chunk];
      } else {
        assert sent + [] == sent;
      }
      i := i + 1;
    }
    assert chunks[..i] == chunks;
  }

  /**
   * The document branch: a body that decodes is cut after every ". ", and
   * each piece that is not blank is posted trimmed, followed by a pause; a
   * body that does not decode posts nothing.
   */
  method RelayDocument(client: SlackClient, channel: string, document: Option<ChatResponse>)
    returns (pauses: nat)
    modifies client
    ensures client.posts == old(client.posts) + PostsTo(channel, DocumentTexts(document))
    ensures pauses == |DocumentTexts(document)|
  {
    match document
    case None =>
      pauses := 0;
    case Some(result) =>
      var chunks := SplitAfter(result.fullResponse, SentenceBreak);
      pauses := RelayPieces(client, channel, chunks);
  }

  /**
   * processTask: the request is sent with up to three attempts; when none
   * connects, only the fallback notice is posted; otherwise the reply is
   * relayed by its Content-Type. Returns the waits slept between attempts,
   * in seconds, and the number of half-second pauses after posts.
   */
  method ProcessTask(client: SlackClient, task: Task, dial: Dialer, decode: Decoder)
    returns (backoff: seq<nat>, pauses: nat)
    modifies client
    ensures client.posts == old(client.posts) + TaskPosts(task, dial, decode)
    ensures backoff == Connect(RequestFor(task), dial).backoff
    ensures Connect(RequestFor(task), dial).response.None? ==> pauses == 0
    ensures Connect(RequestFor(task), dial).response.Some? ==> pauses == |TaskPosts(task, dial, decode)|
  {
    var req := RequestFor(task);
    var c := CallBackend(req, dial);
    backoff := c.backoff;
    if c.response.None? {
      client.PostMessage(task.event.channel, UnavailableText);
      pauses := 0;
      return;
    }
    var resp := c.response.value;
    match Route(resp.contentType)
    case Stream =>
      pauses := RelayStream(client, task.event.channel, resp.lines, decode);
    case Document =>
      pauses := RelayDocument(client, task.event.channel, resp.document);
  }

  // ---------------------------------------------------------------------
  // Properties of processTask
  // ---------------------------------------------------------------------

  /** Every message of a task goes to the channel the task came from. */
  lemma TaskPostsToOwnChannel(task: Task, dial: Dialer, decode: Decoder)
    ensures forall p :: p in TaskPosts(task, dial, decode) ==> p.channel == task.event.channel
  {
  }

  /**
   * The fallback notice is posted exactly when all three attempts fail, and
   * then it is the only message.
   */
  lemma UnavailableIffAllAttemptsFail(task: Task, dial: Dialer, decode: Decoder)
    ensures (forall j :: 0 <= j < MaxAttempts ==> dial(RequestFor(task), j) == ConnectionError)
        <==> Connect(RequestFor(task), dial).response.None?
    ensures Connect(RequestFor(task), dial).response.None?
        ==> TaskPosts(task, dial, decode) == [Post(task.event.channel, UnavailableText)]
  {
    ConnectSucceedsIff(RequestFor(task), dial);
  }

  /**
   * Once connected, the reply is relayed whatever its HTTP status: a reply
   * that differs only in its status code posts the same messages.
   */
  lemma StatusNotInspected(resp: HttpResponse, status: int, decode: Decoder)
    ensures ResponseTexts(resp.(status := status), decode) == ResponseTexts(resp, decode)
  {
  }

  /**
   * A reply read as one document posts only non-empty, trimmed messages,
   * and posts nothing when it does not decode.
   */
  lemma DocumentRepliesPostable(resp: HttpResponse, decode: Decoder)
    requires Route(resp.contentType) == Document
    ensures PostableTexts(ResponseTexts(resp, decode))
    ensures resp.document.None? ==> ResponseTexts(resp, decode) == []
  {
    if resp.document.Some? {
      TrimmedNonEmptyPostable(SplitAfter(resp.document.value.fullResponse, SentenceBreak));
    }
  }

  /**
   * A connected reply read as a stream posts one message per message-part
   * line, in line order, and never more messages than lines.
   */
  lemma StreamRepliesFollowLines(resp: HttpResponse, decode: Decoder)
    requires Route(resp.contentType) == Stream
    ensures |ResponseTexts(resp, decode)| <= |resp.lines|
    ensures forall t :: t in ResponseTexts(resp, decode) <==>
      (exists i :: 0 <= i < |resp.lines| && LineText(resp.lines[i], decode) == Some(t))
  {
    StreamTextsFromLines(resp.lines, decode);
  }

  /**
   * From mention to reply: an accepted mention sends its user, its channel
   * and the cleaned query to the backend, and every message relayed for it
   * goes back to the channel of the mention.
   */
  lemma MentionRepliesReturn(ev: AppMentionEvent, dial: Dialer, decode: Decoder)
    requires ProcessMention(ev).Some?
    ensures RequestFor(ProcessMention(ev).value) == ChatRequest(ev.user, CleanQuery(ev.text, ev.botId), ev.channel)
    ensures forall p :: p in TaskPosts(ProcessMention(ev).value, dial, decode) ==> p.channel == ev.channel
  {
    TaskPostsToOwnChannel(ProcessMention(ev).value, dial, decode);
  }

  /**
   * From direct message to reply: an accepted direct message sends its user,
   * its channel and its raw text to the backend, and every message relayed
   * for it goes back to the channel of the message.
   */
  lemma DirectMessageRepliesReturn(ev: MessageEvent, dial: Dialer, decode: Decoder)
    requires ProcessDirectMessage(ev).Some?
    ensures RequestFor(ProcessDirectMessage(ev).value) == ChatRequest(ev.user, ev.text, ev.channel)
    ensures forall p :: p in TaskPosts(ProcessDirectMessage(ev).value, dial, decode) ==> p.channel == ev.channel
  {
    TaskPostsToOwnChannel(ProcessDirectMessage(ev).value, dial, decode);
  }
}
