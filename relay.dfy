/**
 * The fragment relay of the streaming route (`gemini_stream`): turns what the
 * upstream model yields into wire frames while accumulating the full text.
 * A frame goes on the wire as `<tag>:<json>` and a newline; the JSON encoding
 * of the payload is not part of this model.
 */
module Relay {
  import opened Wrappers

  /** What one step of iterating the upstream response gives: a chunk whose text may be
      empty, or an exception (raised when opening the call or while iterating it). */
  datatype Chunk = Text(text: string) | Fail(reason: string)

  /** The payload of the `d` frame. */
  datatype Completion = Completion(finishReason: string, promptTokens: int, completionTokens: int, sessionId: int)

  /** One line of the stream: `0` a text fragment, `d` the completion, `e` an error. */
  datatype Frame = Fragment(text: string) | Done(completion: Completion) | Error(message: string)

  const StreamErrorPrefix: string := "Stream error: "

  /** The completion sent on normal exhaustion: finish reason "stop", zero token counts. */
  function StopCompletion(sessionId: int): Completion {
    Completion("stop", 0, 0, sessionId)
  }

  /** The frames emitted for the upstream outcomes, in order. */
  function RelayFrames(chunks: seq<Chunk>, sessionId: int): seq<Frame>
    decreases |chunks|
  {
    if chunks == [] then [Done(StopCompletion(sessionId))]
    else match chunks[0]
      case Fail(reason) => [Error(StreamErrorPrefix + reason)]
      case Text(t) => (if t == "" then [] else [Fragment(t)]) + RelayFrames(chunks[1..], sessionId)
  }

  /** The text the relay accumulates: every chunk text up to the first failure. */
  function RelayText(chunks: seq<Chunk>): string
    decreases |chunks|
  {
    if chunks == [] then ""
    else match chunks[0]
      case Fail(_) => ""
      case Text(t) => t + RelayText(chunks[1..])
  }

  /** The concatenated payloads of the text fragments among `frames`. */
  function Joined(frames: seq<Frame>): string
    decreases |frames|
  {
    if frames == [] then ""
    else Joined(frames[..|frames| - 1]) + (if frames[|frames| - 1].Fragment? then frames[|frames| - 1].text else "")
  }

  /** Non-empty text fragments, then exactly one terminal frame (`d` or `e`), which is last. */
  ghost predicate WellFramed(frames: seq<Frame>) {
    && |frames| >= 1
    && (forall k :: 0 <= k < |frames| - 1 ==> frames[k].Fragment? && frames[k].text != "")
    && !frames[|frames| - 1].Fragment?
  }

  /** The chunks consumed before the first failure, and that failure's reason if any. */
  function BeforeFailure(chunks: seq<Chunk>): (r: seq<Chunk>)
    ensures forall k :: 0 <= k < |r| ==> r[k].Text?
    decreases |chunks|
  {
    if chunks == [] || chunks[0].Fail? then [] else [chunks[0]] + BeforeFailure(chunks[1..])
  }

  /** The reason of the first failure, if any. */
  function FirstFailure(chunks: seq<Chunk>): Option<string>
    decreases |chunks|
  {
    if chunks == [] then None
    else if chunks[0].Fail? then Some(chunks[0].reason)
    else FirstFailure(chunks[1..])
  }

  /** The texts of the chunks whose text is not empty. */
  function NonEmptyTexts(chunks: seq<Chunk>): seq<string>
    decreases |chunks|
  {
    if chunks == [] then []
    else (if chunks[0].Text? && chunks[0].text != "" then [chunks[0].text] else []) + NonEmptyTexts(chunks[1..])
  }

  /** The payloads of the text fragments, in order. */
  function Fragments(frames: seq<Frame>): seq<string>
    decreases |frames|
  {
    if frames == [] then []
    else (if frames[0].Fragment? then [frames[0].text] else []) + Fragments(frames[1..])
  }

  lemma {:induction false} JoinedAppend(a: seq<Frame>, b: seq<Frame>)
    ensures Joined(a + b) == Joined(a) + Joined(b)
    decreases |b|
  {
    if b == [] {
      assert a + b == a;
    } else {
      var init := b[..|b| - 1];
      assert (a + b)[..|a + b| - 1] == a + init;
      assert (a + b)[|a + b| - 1] == b[|b| - 1];
      JoinedAppend(a, init);
    }
  }

  /** Emitting one more frame adds its text, if it is a fragment, to the joined text. */
  lemma JoinedSnoc(frames: seq<Frame>, f: Frame)
    ensures Joined(frames + [f]) == Joined(frames) + (if f.Fragment? then f.text else "")
  {
    assert (frames + [f])[..|frames|] == frames;
  }

  /** One step of the relay on the remaining chunks. */
  lemma RelayStep(rest: seq<Chunk>, sessionId: int)
    requires rest != []
    ensures rest[0].Fail? ==>
      RelayFrames(rest, sessionId) == [Error(StreamErrorPrefix + rest[0].reason)] && RelayText(rest) == ""
    ensures rest[0].Text? ==>
      && RelayText(rest) == rest[0].text + RelayText(rest[1..])
      && RelayFrames(rest, sessionId) ==
           (if rest[0].text == "" then [] else [Fragment(rest[0].text)]) + RelayFrames(rest[1..], sessionId)
  {
  }

  /** What the relay loop keeps true after handling the first `i` chunks. */
  ghost predicate RelayedSoFar(chunks: seq<Chunk>, i: nat, sessionId: int, frames: seq<Frame>, collected: string)
    requires i <= |chunks|
  {
    && RelayFrames(chunks, sessionId) == frames + RelayFrames(chunks[i..], sessionId)
    && RelayText(chunks) == collected + RelayText(chunks[i..])
    && collected == Joined(frames)
  }

  lemma RelayTextStep(chunks: seq<Chunk>, i: nat, sessionId: int, frames: seq<Frame>, collected: string)
    requires i < |chunks| && chunks[i].Text?
    requires RelayedSoFar(chunks, i, sessionId, frames, collected)
    ensures var t := chunks[i].text;
      RelayedSoFar(chunks, i + 1, sessionId,
                   if t == "" then frames else frames + [Fragment(t)],
                   collected + t)
  {
    var t := chunks[i].text;
    RelayStep(chunks[i..], sessionId);
    assert chunks[i..][0] == chunks[i] && chunks[i..][1..] == chunks[i + 1..];
    if t == "" {
      assert collected + t == collected;
      assert [] + RelayFrames(chunks[i + 1..], sessionId) == RelayFrames(chunks[i + 1..], sessionId);
    } else {
      JoinedSnoc(frames, Fragment(t));
    }
  }

  lemma RelayFailStep(chunks: seq<Chunk>, i: nat, sessionId: int, frames: seq<Frame>, collected: string)
    requires i < |chunks| && chunks[i].Fail?
    requires RelayedSoFar(chunks, i, sessionId, frames, collected)
    ensures RelayFrames(chunks, sessionId) == frames + [Error(StreamErrorPrefix + chunks[i].reason)]
    ensures RelayText(chunks) == collected
  {
    RelayStep(chunks[i..], sessionId);
    assert chunks[i..][0] == chunks[i];
    assert collected + "" == collected;
  }

  lemma FragmentsAppend(a: seq<Frame>, b: seq<Frame>)
    ensures Fragments(a + b) == Fragments(a) + Fragments(b)
    decreases |a|
  {
    if a == [] {
      assert a + b == b;
    } else {
      assert (a + b)[1..] == a[1..] + b;
    }
  }

  /** Whatever the upstream does, the stream is well framed: fragments, then one terminal frame. */
  lemma {:induction false} RelayWellFramed(chunks: seq<Chunk>, sessionId: int)
    ensures WellFramed(RelayFrames(chunks, sessionId))
    decreases |chunks|
  {
    if chunks != [] && chunks[0].Text? {
      RelayWellFramed(chunks[1..], sessionId);
      var t := chunks[0].text;
      var rest := RelayFrames(chunks[1..], sessionId);
      var head := if t == "" then [] else [Fragment(t)];
      assert RelayFrames(chunks, sessionId) == head + rest;
    }
  }

  /** The terminal frame is `d` with the stop completion exactly when no failure occurred,
      and otherwise `e` carrying "Stream error: " and the first failure's reason. */
  lemma {:induction false} RelayTerminal(chunks: seq<Chunk>, sessionId: int)
    ensures var f := RelayFrames(chunks, sessionId);
      |f| >= 1 &&
      f[|f| - 1] == match FirstFailure(chunks)
                    case None => Done(StopCompletion(sessionId))
                    case Some(reason) => Error(StreamErrorPrefix + reason)
    ensures FirstFailure(chunks).None? <==> forall k :: 0 <= k < |chunks| ==> chunks[k].Text?
    decreases |chunks|
  {
    if chunks != [] && chunks[0].Text? {
      RelayTerminal(chunks[1..], sessionId);
      var t := chunks[0].text;
      var head := if t == "" then [] else [Fragment(t)];
      assert RelayFrames(chunks, sessionId) == head + RelayFrames(chunks[1..], sessionId);
      if forall k :: 0 <= k < |chunks[1..]| ==> chunks[1..][k].Text? {
        forall k | 0 <= k < |chunks| ensures chunks[k].Text? {
          if k > 0 { assert chunks[k] == chunks[1..][k - 1]; }
        }
      } else {
        var k :| 0 <= k < |chunks[1..]| && !chunks[1..][k].Text?;
        assert !chunks[k + 1].Text?;
      }
    } else if chunks != [] {
      assert !chunks[0].Text?;
    }
  }

  /** The relay's upstream consumption stops at the first failure. */
  lemma {:induction false} BeforeFailureIsPrefix(chunks: seq<Chunk>)
    ensures BeforeFailure(chunks) <= chunks
    ensures FirstFailure(chunks).None? <==> BeforeFailure(chunks) == chunks
    ensures FirstFailure(chunks).Some? ==>
      |BeforeFailure(chunks)| < |chunks| && chunks[|BeforeFailure(chunks)|] == Fail(FirstFailure(chunks).value)
    decreases |chunks|
  {
    if chunks != [] && chunks[0].Text? {
      BeforeFailureIsPrefix(chunks[1..]);
      assert chunks == [chunks[0]] + chunks[1..];
    }
  }

  /** The fragments are the non-empty chunk texts before the first failure, in upstream order,
      and the accumulated text is their concatenation. */
  lemma {:induction false} RelayFragments(chunks: seq<Chunk>, sessionId: int)
    ensures Fragments(RelayFrames(chunks, sessionId)) == NonEmptyTexts(BeforeFailure(chunks))
    ensures Joined(RelayFrames(chunks, sessionId)) == RelayText(chunks)
    decreases |chunks|
  {
    if chunks == [] {
      assert Joined([Done(StopCompletion(sessionId))]) == Joined([]) + "";
    } else if chunks[0].Fail? {
      assert Joined([Error(StreamErrorPrefix + chunks[0].reason)]) == Joined([]) + "";
    } else {
      RelayFragments(chunks[1..], sessionId);
      var t := chunks[0].text;
      var rest := RelayFrames(chunks[1..], sessionId);
      var head := if t == "" then [] else [Fragment(t)];
      assert RelayFrames(chunks, sessionId) == head + rest;
      FragmentsAppend(head, rest);
      JoinedAppend(head, rest);
      assert Joined(head) == t by {
        if t != "" { assert Joined(head) == Joined([]) + t; }
      }
      var b := BeforeFailure(chunks);
      assert b == [chunks[0]] + BeforeFailure(chunks[1..]);
      assert b[1..] == BeforeFailure(chunks[1..]);
    }
  }

  /**
   * The relay loop: forward every non-empty chunk text as a `0` frame while adding it to the
   * accumulator; a failure ends the stream with one `e` frame, exhaustion with one `d` frame.
   */
  method RelayChunks(chunks: seq<Chunk>, sessionId: int) returns (frames: seq<Frame>, collected: string)
    ensures frames == RelayFrames(chunks, sessionId)
    ensures collected == RelayText(chunks)
  {
    frames, collected := [], "";
    var i := 0;
    assert chunks[0..] == chunks;
    assert Joined([]) == "";
    while i < |chunks|
      invariant 0 <= i <= |chunks|
      invariant RelayedSoFar(chunks, i, sessionId, frames, collected)
      invariant collected == Joined(frames)
    {
      if chunks[i].Fail? {
        RelayFailStep(chunks, i, sessionId, frames, collected);
        frames := frames + [Error(StreamErrorPrefix + chunks[i].reason)];
        return;
      }
      var t := chunks[i].text;
      RelayTextStep(chunks, i, sessionId, frames, collected);
      if t != "" {
        frames := frames + [Fragment(t)];
      }
      collected := collected + t;
      i := i + 1;
    }
    assert chunks[i..] == [];
    frames := frames + [Done(StopCompletion(sessionId))];
  }
}
