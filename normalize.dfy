/**
 * Turning a backend reply into the texts of outbound messages (the two
 * branches of the Content-Type switch in processTask, main.go): the
 * stream filter over "data: " lines and the sentence chunking of a single
 * document. Decoding the JSON payload of a line is an abstract decoder.
 */
module Normalize {
  import opened Wrappers
  import opened GoStrings
  import opened Events

  /** Decodes the JSON payload of a stream line; None when it is malformed. */
  type Decoder = string -> Option<ChatResponse>

  /** The prefix of a stream line that carries a record. */
  const DataPrefix := "data: "

  /** The event of a stream record that carries text. */
  const MessagePartEvent := "message_part"

  /** The event that marks the end of a stream; it is not acted upon. */
  const StreamEndEvent := "stream_end"

  /** Where a single document is cut. */
  const SentenceBreak := ". "

  // ---------------------------------------------------------------------
  // Stream replies
  // ---------------------------------------------------------------------

  /**
   * The text one stream line yields: the text chunk of a line that starts
   * with "data: " and whose payload decodes to a "message_part" record;
   * nothing for any other line.
   */
  function LineText(line: string, decode: Decoder): (t: Option<string>)
    ensures t.Some? <==>
      && HasPrefix(line, DataPrefix)
      && decode(line[|DataPrefix|..]).Some?
      && decode(line[|DataPrefix|..]).value.event == MessagePartEvent
    ensures t.Some? ==> t.value == decode(line[|DataPrefix|..]).value.textChunk
  {
    if HasPrefix(line, DataPrefix) then
      match decode(TrimPrefix(line, DataPrefix))
      case Some(msg) => if msg.event == MessagePartEvent then Some(msg.textChunk) else None
      case None => None
    else None
  }

  /** Zero or one text as a sequence. */
  function Emit(t: Option<string>): (r: seq<string>)
    ensures |r| <= 1
  {
    match t
    case Some(text) => [text]
    case None => []
  }

  /** The texts a stream yields, in line order. */
  function StreamTexts(lines: seq<string>, decode: Decoder): (r: seq<string>)
    ensures |r| <= |lines|
  {
    if lines == [] then [] else Emit(LineText(lines[0], decode)) + StreamTexts(lines[1..], decode)
  }

  /** A stream read in two parts yields the texts of each part, in order. */
  lemma {:induction false} StreamTextsAppend(a: seq<string>, b: seq<string>, decode: Decoder)
    ensures StreamTexts(a + b, decode) == StreamTexts(a, decode) + StreamTexts(b, decode)
  {
    if a == [] {
      assert a + b == b;
    } else {
      assert (a + b)[1..] == a[1..] + b;
      StreamTextsAppend(a[1..], b, decode);
    }
  }

  /**
   * A line that yields nothing (no "data: " prefix, a payload that does not
   * decode, a "stream_end" or any other record) neither posts nor ends the
   * stream: what follows it is still read.
   */
  lemma SkippedLineNeutral(a: seq<string>, line: string, b: seq<string>, decode: Decoder)
    requires LineText(line, decode).None?
    ensures StreamTexts(a + [line] + b, decode) == StreamTexts(a, decode) + StreamTexts(b, decode)
  {
    assert a + [line] + b == a + ([line] + b);
    StreamTextsAppend(a, [line] + b, decode);
    StreamTextsCons(line, b, decode);
  }

  /** Every text of a stream comes from a line of it, and each yielding line is represented. */
  lemma {:induction false} StreamTextsFromLines(lines: seq<string>, decode: Decoder)
    ensures forall t :: t in StreamTexts(lines, decode) <==> exists i :: 0 <= i < |lines| && LineText(lines[i], decode) == Some(t)
  {
    if lines != [] {
      StreamTextsFromLines(lines[1..], decode);
      forall t ensures t in StreamTexts(lines, decode) <==> exists i :: 0 <= i < |lines| && LineText(lines[i], decode) == Some(t) {
        if t in StreamTexts(lines[1..], decode) {
          var i :| 0 <= i < |lines[1..]| && LineText(lines[1..][i], decode) == Some(t);
          assert LineText(lines[i + 1], decode) == Some(t);
        }
        if exists i :: 0 <= i < |lines| && LineText(lines[i], decode) == Some(t) {
          var i :| 0 <= i < |lines| && LineText(lines[i], decode) == Some(t);
          if i > 0 {
            assert LineText(lines[1..][i - 1], decode) == Some(t);
          }
        }
      }
    }
  }

  lemma StreamTextsCons(line: string, rest: seq<string>, decode: Decoder)
    ensures StreamTexts([line] + rest, decode) == Emit(LineText(line, decode)) + StreamTexts(rest, decode)
  {
    assert ([line] + rest)[1..] == rest;
  }

  /** A "data: " line yields the text of its payload exactly when that is a message part. */
  lemma DataLineText(payload: string, decode: Decoder)
    ensures LineText(DataPrefix + payload, decode)
         == if decode(payload).Some? && decode(payload).value.event == MessagePartEvent
            then Some(decode(payload).value.textChunk) else None
  {
    assert (DataPrefix + payload)[|DataPrefix|..] == payload;
  }

  /** A line followed by the blank line that closes its event yields what the line yields. */
  lemma EventThenBlank(line: string, rest: seq<string>, decode: Decoder)
    ensures StreamTexts([line, ""] + rest, decode) == Emit(LineText(line, decode)) + StreamTexts(rest, decode)
  {
    assert [line, ""] + rest == [line] + ([""] + rest);
    assert LineText("", decode) == None;
    StreamTextsCons(line, [""] + rest, decode);
    StreamTextsCons("", rest, decode);
  }

  /**
   * The stream test of main_test.go: records "part1", "part2" and a
   * "stream_end", each line followed by the blank line that closes a
   * server-sent event, yield exactly "part1" and "part2".
   */
  lemma StreamTestExample(j1: string, j2: string, j3: string, decode: Decoder)
    requires decode(j1) == Some(ChatResponse(1, MessagePartEvent, "part1", "", "", ""))
    requires decode(j2) == Some(ChatResponse(2, MessagePartEvent, "part2", "", "", ""))
    requires decode(j3) == Some(ChatResponse(3, StreamEndEvent, "", "done", "", ""))
    ensures StreamTexts([DataPrefix + j1, "", DataPrefix + j2, "", DataPrefix + j3, ""], decode) == ["part1", "part2"]
  {
    var l1, l2, l3 := DataPrefix + j1, DataPrefix + j2, DataPrefix + j3;
    var t3: seq<string> := [l3, ""];
    var t2 := [l2, ""] + t3;
    assert [l1, "", l2, "", l3, ""] == [l1, ""] + t2;
    assert t3 == [l3, ""] + [];
    DataLineText(j1, decode);
    DataLineText(j2, decode);
    DataLineText(j3, decode);
    assert StreamEndEvent != MessagePartEvent;
    EventThenBlank(l3, [], decode);
    EventThenBlank(l2, t3, decode);
    EventThenBlank(l1, t2, decode);
  }

  // ---------------------------------------------------------------------
  // Single-document replies
  // ---------------------------------------------------------------------

  /** One piece, trimmed, kept when something is left of it. */
  function KeepChunk(piece: string): (r: seq<string>)
    ensures |r| <= 1
    ensures r == [] <==> AllSpace(piece)
    ensures r != [] ==> r[0] != [] && Trimmed(r[0])
    ensures r != [] ==> var i := LeadingSpaces(piece);
      && i + |r[0]| <= |piece|
      && AllSpace(piece[..i])
      && piece[i..i + |r[0]|] == r[0]
      && AllSpace(piece[i + |r[0]|..])
  {
    var chunk := TrimSpace(piece);
    TrimSpaceEmptyIff(piece);
    TrimSpaceInfix(piece);
    if chunk == [] then [] else [chunk]
  }

  /** Messages as the relay posts them: none is empty, none starts or ends with white space. */
  predicate PostableTexts(texts: seq<string>) {
    forall k :: 0 <= k < |texts| ==> texts[k] != [] && Trimmed(texts[k])
  }

  /** Each piece mapped to its texts, laid end to end in piece order. */
  function FlatMap(f: string -> seq<string>, pieces: seq<string>): (r: seq<string>)
  {
    if pieces == [] then [] else f(pieces[0]) + FlatMap(f, pieces[1..])
  }

  lemma FlatMapCons(f: string -> seq<string>, piece: string, rest: seq<string>)
    ensures FlatMap(f, [piece] + rest) == f(piece) + FlatMap(f, rest)
  {
    assert ([piece] + rest)[1..] == rest;
  }

  /** Mapping piece by piece distributes over the pieces. */
  lemma {:induction false} FlatMapAppend(f: string -> seq<string>, a: seq<string>, b: seq<string>)
    ensures FlatMap(f, a + b) == FlatMap(f, a) + FlatMap(f, b)
  {
    if a == [] {
      assert a + b == b;
    } else {
      assert (a + b)[1..] == a[1..] + b;
      FlatMapAppend(f, a[1..], b);
    }
  }

  /** The non-empty trimmed pieces, in order. */
  function TrimmedNonEmpty(pieces: seq<string>): seq<string>
  {
    FlatMap(KeepChunk, pieces)
  }

  /** Every message kept is non-empty and trimmed, and there are no more than pieces. */
  lemma {:induction false} TrimmedNonEmptyPostable(pieces: seq<string>)
    ensures PostableTexts(TrimmedNonEmpty(pieces))
    ensures |TrimmedNonEmpty(pieces)| <= |pieces|
  {
    if pieces != [] {
      TrimmedNonEmptyPostable(pieces[1..]);
      var k, rest := KeepChunk(pieces[0]), TrimmedNonEmpty(pieces[1..]);
      assert TrimmedNonEmpty(pieces) == k + rest;
      forall i | 0 <= i < |k + rest| ensures (k + rest)[i] != [] && Trimmed((k + rest)[i]) {
        if i < |k| {
          assert (k + rest)[i] == k[0];
        } else {
          assert (k + rest)[i] == rest[i - |k|];
        }
      }
    }
  }

  /**
   * The messages of a single document: the text cut after every ". ",
   * each piece trimmed, empty pieces dropped. Every message is non-empty
   * and trimmed.
   */
  function DocumentChunks(full: string): (r: seq<string>)
  {
    TrimmedNonEmpty(SplitAfter(full, SentenceBreak))
  }

  /** The messages of the document branch: none when the body does not decode. */
  function DocumentTexts(document: Option<ChatResponse>): (r: seq<string>)
    ensures document.None? ==> r == []
  {
    match document
    case None => []
    case Some(reply) => DocumentChunks(reply.fullResponse)
  }

  /**
   * Text that ends with its first ". " once a blank is appended: a
   * sentence ending in a full stop, with no ". " inside it.
   */
  predicate InnerSentence(s: string) {
    s != [] && Trimmed(s) && EndsAtFirst(s + " ", SentenceBreak)
  }

  /** The last sentence: no ". " anywhere in it. */
  predicate LastSentence(s: string) {
    s != [] && Trimmed(s) && !Contains(s, SentenceBreak)
  }

  predicate Sentences(ss: seq<string>) {
    && |ss| >= 1
    && (forall k :: 0 <= k < |ss| - 1 ==> InnerSentence(ss[k]))
    && LastSentence(ss[|ss| - 1])
  }

  /** A piece that ends with its first separator is cut off whole, whatever follows it. */
  lemma SplitAfterFirst(p: string, rest: string, sep: string)
    requires sep != [] && EndsAtFirst(p, sep)
    ensures SplitAfter(p + rest, sep) == [p] + SplitAfter(rest, sep)
  {
    IndexExtend(p, rest, sep);
    assert (p + rest)[..|p|] == p;
    assert (p + rest)[|p|..] == rest;
  }

  /** A sentence followed by its blank is posted as the sentence. */
  lemma KeepSentence(s: string)
    requires s != [] && Trimmed(s)
    ensures KeepChunk(s + " ") == [s]
  {
    assert AllSpace(" ");
    assert [] + s + " " == s + " ";
    TrimSpaceOf([], s, " ");
  }

  /** A last sentence is one message. */
  lemma ChunksOfLastSentence(s: string)
    requires LastSentence(s)
    ensures DocumentChunks(s) == [s]
  {
    assert SplitAfter(s, SentenceBreak) == [s];
    assert [] + s + [] == s;
    TrimSpaceOf([], s, []);
    FlatMapCons(KeepChunk, s, []);
    assert [s] + [] == [s];
    assert KeepChunk(s) == [s];
  }

  /** An inner sentence and its blank become one message, ahead of the rest. */
  lemma ChunksAfterSentence(s: string, rest: string)
    requires InnerSentence(s)
    ensures DocumentChunks((s + " ") + rest) == [s] + DocumentChunks(rest)
  {
    SplitAfterFirst(s + " ", rest, SentenceBreak);
    FlatMapCons(KeepChunk, s + " ", SplitAfter(rest, SentenceBreak));
    KeepSentence(s);
  }

  /**
   * Chunking inverts joining sentences with blanks: a reply written as
   * trimmed sentences separated by one blank comes back as those sentences.
   */
  lemma {:induction false} ChunksOfJoinedSentences(ss: seq<string>)
    requires Sentences(ss)
    ensures DocumentChunks(Join(ss, " ")) == ss
  {
    if |ss| == 1 {
      ChunksOfOneSentence(ss);
    } else {
      var s, tail := ss[0], ss[1..];
      assert ss == [s] + tail;
      SentencesTail(ss);
      ChunksOfJoinedSentences(tail);
      ChunksOfSentenceBefore(s, tail);
    }
  }

  /** A single sentence is recovered alone. */
  lemma ChunksOfOneSentence(ss: seq<string>)
    requires |ss| == 1 && LastSentence(ss[0])
    ensures DocumentChunks(Join(ss, " ")) == ss
  {
    ChunksOfLastSentence(ss[0]);
    assert [ss[0]] == ss;
  }

  /** One step of the induction: a sentence in front of sentences already recovered. */
  lemma ChunksOfSentenceBefore(s: string, tail: seq<string>)
    requires InnerSentence(s) && |tail| >= 1
    requires DocumentChunks(Join(tail, " ")) == tail
    ensures DocumentChunks(Join([s] + tail, " ")) == [s] + tail
  {
    var ss := [s] + tail;
    JoinCons(ss, " ");
    assert ss[0] == s && ss[1..] == tail;
    ChunksAfterSentence(s, Join(tail, " "));
  }

  lemma SentencesTail(ss: seq<string>)
    requires Sentences(ss) && |ss| >= 2
    ensures InnerSentence(ss[0]) && Sentences(ss[1..])
  {
    assert ss[1..][|ss[1..]| - 1] == ss[|ss| - 1];
    forall k | 0 <= k < |ss[1..]| - 1 ensures InnerSentence(ss[1..][k]) {
      assert ss[1..][k] == ss[k + 1];
    }
  }

  /** No ". " starts before offset 12 of the document test's first sentence. */
  lemma FirstTestSentenceNoEarlierBreak(t: string)
    requires t == "Sentence one. "
    ensures forall k :: 0 <= k < 12 ==> !OccursAt(t, SentenceBreak, k)
  {
    assert forall k :: 0 <= k < 12 ==> t[k] != '.';
    forall k | 0 <= k < 12 ensures !OccursAt(t, SentenceBreak, k) {
      assert t[k..k + 2][0] == t[k];
    }
  }

  /** The first sentence of the document test ends at its first ". ". */
  lemma FirstTestSentence(s: string)
    requires s == "Sentence one."
    ensures InnerSentence(s)
  {
    var t := s + " ";
    assert !IsSpace('S') && !IsSpace('.');
    assert t == "Sentence one. ";
    assert t[12..14] == SentenceBreak;
    FirstTestSentenceNoEarlierBreak(t);
    IndexIs(t, SentenceBreak, 12);
  }

  /** The second sentence of the document test holds no ". ". */
  lemma SecondTestSentence()
    ensures LastSentence("Sentence two.")
  {
    var t := "Sentence two.";
    assert !IsSpace('S') && !IsSpace('.');
    assert forall k :: 0 <= k < 12 ==> t[k] != '.';
    forall k | 0 <= k <= |t| - |SentenceBreak| ensures !OccursAt(t, SentenceBreak, k) {
      assert t[k..k + 2][0] == t[k];
    }
  }

  /** The document test of main_test.go: "Sentence one. Sentence two." gives two messages. */
  lemma DocumentTestExample()
    ensures DocumentChunks("Sentence one. Sentence two.") == ["Sentence one.", "Sentence two."]
  {
    var ss := ["Sentence one.", "Sentence two."];
    FirstTestSentence(ss[0]);
    SecondTestSentence();
    JoinCons(ss, " ");
    assert Join(ss, " ") == "Sentence one. Sentence two.";
    ChunksOfJoinedSentences(ss);
  }
}
