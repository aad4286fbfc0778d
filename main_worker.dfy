/** ExplanationWorker (main.py): the filter that turns a stream of completion
    chunks into the text chunks handed to the label, and its stop flag. The
    completion call is replaced by the chunk sequence it yields and the way the
    stream ends. */
module MainWorker {
  import opened Basics

  /** One entry of a chunk's `choices`: the `content` of its `delta`, when present. */
  datatype Choice = Choice(deltaContent: Option<string>)

  /** One streamed chunk; `choices` may be absent. */
  datatype StreamChunk = StreamChunk(choices: Option<seq<Choice>>)

  /** How the stream ends after its last chunk: normally, or by raising an error. */
  datatype Ending = Completed | Failed(message: string)

  /** The text prefix of the error chunk. */
  const ErrorPrefix: string := "**Error:** "

  /** The text a chunk contributes: the delta content of its first choice, if any. */
  function ChunkText(c: StreamChunk): (r: seq<string>)
    ensures |r| <= 1
    ensures |r| == 1 <==> c.choices.Some? && |c.choices.value| > 0 && c.choices.value[0].deltaContent.Some?
    ensures |r| == 1 ==> r[0] == c.choices.value[0].deltaContent.value
  {
    if c.choices.Some? && |c.choices.value| > 0 then
      match c.choices.value[0].deltaContent
      case Some(text) => [text]
      case None => []
    else []
  }

  /** The texts of a sequence of chunks, in order. */
  function ChunkTexts(cs: seq<StreamChunk>): seq<string>
  {
    if cs == [] then [] else ChunkTexts(cs[..|cs| - 1]) + ChunkText(cs[|cs| - 1])
  }

  /** The texts of two consecutive stretches of stream are the texts of each, concatenated. */
  lemma {:induction false} ChunkTextsAppend(a: seq<StreamChunk>, b: seq<StreamChunk>)
    ensures ChunkTexts(a + b) == ChunkTexts(a) + ChunkTexts(b)
    decreases |b|
  {
    if b != [] {
      var b' := b[..|b| - 1];
      assert (a + b)[..|a + b| - 1] == a + b';
      assert (a + b)[|a + b| - 1] == b[|b| - 1];
      ChunkTextsAppend(a, b');
      assert ChunkTexts(a + b) == ChunkTexts(a + b') + ChunkText(b[|b| - 1]);
      assert ChunkTexts(b) == ChunkTexts(b') + ChunkText(b[|b| - 1]);
    } else {
      assert a + b == a;
    }
  }

  /** Every text handed on is a chunk's content, and there are never more texts than chunks. */
  lemma {:induction false} ChunkTextsFromChunks(cs: seq<StreamChunk>)
    ensures |ChunkTexts(cs)| <= |cs|
    ensures forall t :: t in ChunkTexts(cs) ==>
              exists i :: 0 <= i < |cs| && ChunkText(cs[i]) == [t]
  {
    if cs != [] {
      var init := cs[..|cs| - 1];
      ChunkTextsFromChunks(init);
      forall t | t in ChunkTexts(cs)
        ensures exists i :: 0 <= i < |cs| && ChunkText(cs[i]) == [t]
      {
        if t in ChunkTexts(init) {
          var i :| 0 <= i < |init| && ChunkText(init[i]) == [t];
          assert cs[i] == init[i];
        } else {
          assert ChunkText(cs[|cs| - 1]) == [t];
        }
      }
    }
  }

  /** Where the loop leaves the stream: the first chunk at which the stop flag is
      seen cleared, or the end of the stream. */
  function Cut(n: nat, running: bool, stopAt: Option<nat>): (k: nat)
    ensures k <= n
    ensures !running ==> k == 0
    ensures running && stopAt.None? ==> k == n
    ensures running && stopAt.Some? ==> k == if stopAt.value < n then stopAt.value else n
  {
    if !running then 0
    else match stopAt
      case None => n
      case Some(s) => if s < n then s else n
  }

  /** The stop flag is still set when the stream ends. */
  predicate RunningAtEnd(n: nat, running: bool, stopAt: Option<nat>)
  {
    running && (stopAt.None? || stopAt.value > n)
  }

  /** Everything run hands to the label: the texts of the chunks read before a stop,
      then the error text when the stream failed and no stop came first. */
  function RunOutput(chunks: seq<StreamChunk>, ending: Ending, running: bool, stopAt: Option<nat>): seq<string>
  {
    ChunkTexts(chunks[..Cut(|chunks|, running, stopAt)]) +
    (if ending.Failed? && RunningAtEnd(|chunks|, running, stopAt) then [ErrorPrefix + ending.message] else [])
  }

  /** A stop that comes later never hands over less: the earlier output is a prefix. */
  lemma LaterStopEmitsMore(chunks: seq<StreamChunk>, s: nat, t: nat)
    requires s <= t
    ensures ChunkTexts(chunks[..Cut(|chunks|, true, Some(s))]) <= ChunkTexts(chunks[..Cut(|chunks|, true, Some(t))])
  {
    var a, b := Cut(|chunks|, true, Some(s)), Cut(|chunks|, true, Some(t));
    assert chunks[..b] == chunks[..a] + chunks[a..b];
    ChunkTextsAppend(chunks[..a], chunks[a..b]);
  }

  /** A stopped run never reports an error. */
  lemma StoppedRunHasNoError(chunks: seq<StreamChunk>, ending: Ending, s: nat)
    requires s <= |chunks|
    ensures RunOutput(chunks, ending, true, Some(s)) == ChunkTexts(chunks[..s])
  {
  }

  /** ExplanationWorker: the code to explain and the flag that `stop` clears. */
  class ExplanationWorker {
    const code: string
    var isRunning: bool

    constructor (code: string)
      ensures this.code == code && isRunning
    {
      this.code := code;
      isRunning := true;
    }

    method Stop()
      modifies this`isRunning
      ensures !isRunning
    {
      isRunning := false;
    }

    /** run: read the stream chunk by chunk, leaving it when the flag is cleared (a
        `stop` arriving before the chunk at index `stopAt`), handing on each first-choice
        delta content; a failing stream hands on an error text unless stopped. The
        finished signal is emitted on every path. */
    method Run(chunks: seq<StreamChunk>, ending: Ending, stopAt: Option<nat>) returns (emitted: seq<string>)
      modifies this`isRunning
      ensures emitted == RunOutput(chunks, ending, old(isRunning), stopAt)
      ensures isRunning == (old(isRunning) && !(stopAt.Some? && stopAt.value <= |chunks|))
    {
      ghost var wasRunning := isRunning;
      emitted := [];
      var stopped := false;
      var i := 0;
      while i < |chunks|
        invariant 0 <= i <= |chunks|
        invariant isRunning == (wasRunning && !(stopAt.Some? && stopAt.value < i))
        invariant i <= Cut(|chunks|, wasRunning, stopAt)
        invariant emitted == ChunkTexts(chunks[..i])
      {
        if stopAt == Some(i) {
          Stop();
        }
        if !isRunning {
          stopped := true;
          break;
        }
        var chunk := chunks[i];
        if chunk.choices.Some? && |chunk.choices.value| > 0 {
          var delta := chunk.choices.value[0].deltaContent;
          if delta.Some? {
            emitted := emitted + [delta.value];
          }
        }
        assert chunks[..i + 1][..i] == chunks[..i];
        i := i + 1;
      }
      assert i == Cut(|chunks|, wasRunning, stopAt);
      if !stopped {
        if stopAt == Some(|chunks|) {
          Stop();
        }
        if ending.Failed? && isRunning {
          emitted := emitted + [ErrorPrefix + ending.message];
        }
      }
    }
  }
}
