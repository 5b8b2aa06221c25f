/**
 * The backend call of processTask (main.go): up to three connection
 * attempts with a linear backoff, then routing of the reply on its exact
 * Content-Type. The network is an abstract dialer that gives the outcome
 * of each numbered attempt; sleeping is recorded as the list of delays,
 * in seconds.
 */
module Backend {
  import opened Wrappers
  import opened Events

  /**
   * A reply that reached the relay. Its body is given in the two forms the
   * relay can read it in: the lines a line scanner yields, and the result of
   * decoding the body as one JSON document (None when that fails).
   */
  datatype HttpResponse = HttpResponse(
    status: int,
    contentType: string,
    lines: seq<string>,
    document: Option<ChatResponse>)

  /** The outcome of one attempt: a connection-level error, or a reply. */
  datatype Attempt = ConnectionError | Connected(response: HttpResponse)

  /** What attempt number k (from 0) of sending a request yields. */
  type Dialer = (ChatRequest, nat) -> Attempt

  const MaxAttempts: nat := 3

  /**
   * The outcome of the whole call: the reply of the first attempt that
   * connected, if any; the number of attempts made; and the delays slept.
   */
  datatype Connection = Connection(response: Option<HttpResponse>, attempts: nat, backoff: seq<nat>)

  /** The delays after the first `failures` failed attempts: failed attempt i waits i + 1 seconds. */
  function Backoff(failures: nat): (r: seq<nat>)
    ensures |r| == failures
    ensures forall i :: 0 <= i < failures ==> r[i] == i + 1
  {
    if failures == 0 then [] else Backoff(failures - 1) + [failures]
  }

  function Sum(s: seq<nat>): nat {
    if s == [] then 0 else s[0] + Sum(s[1..])
  }

  /**
   * The call from attempt `k` on, all earlier attempts having failed: it
   * stops at the first attempt that connects, and gives up after the last.
   */
  function ConnectFrom(req: ChatRequest, dial: Dialer, k: nat): (c: Connection)
    requires k <= MaxAttempts
    ensures k <= c.attempts <= MaxAttempts
    ensures forall j :: k <= j < c.attempts - 1 ==> dial(req, j) == ConnectionError
    ensures c.response.Some? ==> k < c.attempts && dial(req, c.attempts - 1) == Connected(c.response.value)
    ensures c.response.None? ==> c.attempts == MaxAttempts && (k < MaxAttempts ==> dial(req, MaxAttempts - 1) == ConnectionError)
    ensures c.backoff == Backoff(if c.response.Some? then c.attempts - 1 else c.attempts)
    decreases MaxAttempts - k
  {
    if k == MaxAttempts then Connection(None, MaxAttempts, Backoff(MaxAttempts))
    else
      match dial(req, k)
      case Connected(resp) => Connection(Some(resp), k + 1, Backoff(k))
      case ConnectionError => ConnectFrom(req, dial, k + 1)
  }

  /**
   * The retry loop of processTask: between one and three attempts; every
   * attempt before the last one failed to connect; the call succeeds with
   * the reply of the last attempt, or fails after three failures; each
   * failed attempt i is followed by a wait of i + 1 seconds, the third
   * failure included.
   */
  function Connect(req: ChatRequest, dial: Dialer): (c: Connection)
    ensures 1 <= c.attempts <= MaxAttempts
    ensures forall j :: 0 <= j < c.attempts - 1 ==> dial(req, j) == ConnectionError
    ensures c.response.Some? <==> dial(req, c.attempts - 1).Connected?
    ensures c.response.Some? ==> c.response.value == dial(req, c.attempts - 1).response
    ensures c.response.None? ==> c.attempts == MaxAttempts
    ensures c.backoff == Backoff(if c.response.Some? then c.attempts - 1 else c.attempts)
  {
    ConnectFrom(req, dial, 0)
  }

  /** The loop of processTask, step by step; it computes Connect. */
  method CallBackend(req: ChatRequest, dial: Dialer) returns (c: Connection)
    ensures c == Connect(req, dial)
  {
    var attempt: nat := 0;
    var backoff: seq<nat> := [];
    var resp: Option<HttpResponse> := None;
    while attempt < MaxAttempts
      invariant attempt <= MaxAttempts
      invariant backoff == Backoff(attempt)
      invariant ConnectFrom(req, dial, attempt) == Connect(req, dial)
    {
      var outcome := dial(req, attempt);
      if outcome.Connected? {
        resp := Some(outcome.response);
        break;
      }
      backoff := backoff + [attempt + 1];
      attempt := attempt + 1;
    }
    if resp.Some? {
      c := Connection(resp, attempt + 1, backoff);
    } else {
      c := Connection(None, MaxAttempts, backoff);
    }
  }

  /** The call connects exactly when one of the three attempts does. */
  lemma ConnectSucceedsIff(req: ChatRequest, dial: Dialer)
    ensures Connect(req, dial).response.None?
        <==> forall j :: 0 <= j < MaxAttempts ==> dial(req, j) == ConnectionError
  {
    var c := Connect(req, dial);
    if c.response.Some? {
      assert dial(req, c.attempts - 1).Connected?;
    }
  }

  /** An immediate connection makes a single attempt and sleeps not at all. */
  lemma FirstAttemptConnects(req: ChatRequest, dial: Dialer)
    requires dial(req, 0).Connected?
    ensures Connect(req, dial) == Connection(Some(dial(req, 0).response), 1, [])
  {
  }

  /** Three failures sleep 1, 2 and 3 seconds: six in all. */
  lemma {:induction false} FullFailureBackoff(req: ChatRequest, dial: Dialer)
    requires Connect(req, dial).response.None?
    ensures Connect(req, dial).backoff == [1, 2, 3]
    ensures Sum(Connect(req, dial).backoff) == 6
  {
    var b := Connect(req, dial).backoff;
    assert b == [1, 2, 3];
    assert b[1..] == [2, 3];
    assert b[1..][1..] == [3];
    assert b[1..][1..][1..] == [];
    assert Sum(b[1..][1..]) == 3 + Sum([]);
    assert Sum(b[1..]) == 2 + 3;
  }

  // ---------------------------------------------------------------------
  // Routing on Content-Type
  // ---------------------------------------------------------------------

  const EventStreamType := "text/event-stream"

  /** How the body of a reply is read. */
  datatype Transport = Stream | Document

  /**
   * The switch on the Content-Type header: only the exact value
   * "text/event-stream" is read as a stream; anything else, a missing header
   * (read as "") or one with parameters included, as one JSON document.
   */
  function Route(contentType: string): (t: Transport)
    ensures t == Stream <==> contentType == EventStreamType
  {
    if contentType == EventStreamType then Stream else Document
  }

  /** Parameters on the stream type send the reply down the document path. */
  lemma RouteWithParameters()
    ensures Route(EventStreamType + "; charset=utf-8") == Document
    ensures Route("") == Document
  {
    assert |EventStreamType + "; charset=utf-8"| != |EventStreamType|;
  }
}
