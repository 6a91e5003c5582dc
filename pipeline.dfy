/**
 * The chat routes: `stream_chat_response` (validation, session resolution,
 * history reconstruction, the streamed relay and the saving of the turn),
 * `get_session_info` and `get_chat_sessions`, run against the session store.
 */
module Pipeline {
  import opened Wrappers
  import opened Formatter
  import opened Store
  import opened History
  import opened Relay

  /** The request body: `messages` (absent reads as empty) and the optional `session` id. */
  datatype ChatRequest = ChatRequest(messages: seq<Message>, session: Option<int>)

  /** Where saving the turn fails, if it does; every failure is rolled back and swallowed. */
  datatype SaveFault = NoFault | LogCommitFails | TouchCommitFails

  /** The clock readings of one request: session creation, log creation, session touch. */
  datatype Clock = Clock(sessionCreated: nat, logCreated: nat, sessionTouched: nat)

  /** What the route answers: an HTTP error before streaming, or a stream for a session. */
  datatype StreamResponse = Rejected(status: int, detail: string) | Streaming(sessionId: int, frames: seq<Frame>)

  datatype HttpError = HttpError(status: int, detail: string)

  /** The body of `GET /api/chat/session/{id}`. */
  datatype SessionInfo = SessionInfo(title: string, createdAt: nat, messages: seq<Message>)

  /** One element of `GET /api/chat/`: the fields of the response model. */
  datatype SessionSummary = SessionSummary(id: int, title: string, createdAt: nat)

  /** Every failure before streaming is re-raised as 500 with this prefix and the
      original exception's text ("<status>: <detail>" for an HTTP exception). */
  const InternalError: string := "Internal server error: "
  const NoMessages: string := InternalError + "400: No messages provided"
  const NoUserId: string := InternalError + "401: User ID not found"
  const SessionNotFound: string := InternalError + "404: Session not found"

  /** Python truthiness of an optional id: absent, null and 0 are false. */
  predicate Truthy(v: Option<int>) {
    v.Some? && v.value != 0
  }

  /** The text of a `KeyError` for `key`. */
  function KeyErrorText(key: string): string {
    "'" + key + "'"
  }

  /** The frames the stream yields for a conversation, given what the upstream does. */
  function StreamFrames(conversation: seq<Message>, upstream: seq<Chunk>, sessionId: int): seq<Frame> {
    match Format(conversation)
    case Failure(key) => [Error(StreamErrorPrefix + KeyErrorText(key))]
    case Success(_) => RelayFrames(upstream, sessionId)
  }

  /** The stream finished normally: its last frame is `d`. */
  predicate Completed(frames: seq<Frame>) {
    frames != [] && frames[|frames| - 1].Done?
  }

  /** The turn a completed stream saves: the last request message's content as the
      user side, the accumulated text as the assistant side. */
  function Turn(userContent: string, response: string): seq<Message> {
    [Message(Some("user"), Some(userContent)), Message(Some("assistant"), Some(response))]
  }

  /** Whatever the conversation and the upstream, the stream is fragments then one terminal
      frame; it completes exactly when formatting succeeds and the upstream never fails, and
      then its `d` frame carries the resolved session id. */
  lemma StreamFramesShape(conversation: seq<Message>, upstream: seq<Chunk>, sessionId: int)
    ensures WellFramed(StreamFrames(conversation, upstream, sessionId))
    ensures Completed(StreamFrames(conversation, upstream, sessionId)) <==>
      Format(conversation).Success? && forall k :: 0 <= k < |upstream| ==> upstream[k].Text?
    ensures var f := StreamFrames(conversation, upstream, sessionId);
      Completed(f) ==> f[|f| - 1] == Done(Completion("stop", 0, 0, sessionId))
  {
    if Format(conversation).Success? {
      RelayWellFramed(upstream, sessionId);
      RelayTerminal(upstream, sessionId);
    }
  }

  /** The example of a two-chunk upstream: two fragments, the `d` frame, and "Hello" collected;
      a failure after the first chunk leaves that fragment and one `e` frame. */
  lemma {:induction false} StreamExamples(conversation: seq<Message>, sessionId: int)
    requires Format(conversation).Success?
    ensures StreamFrames(conversation, [Text("Hel"), Text("lo")], sessionId) ==
      [Fragment("Hel"), Fragment("lo"), Done(StopCompletion(sessionId))]
    ensures RelayText([Text("Hel"), Text("lo")]) == "Hello"
    ensures StreamFrames(conversation, [Text("Hel"), Fail("quota")], sessionId) ==
      [Fragment("Hel"), Error("Stream error: quota")]
  {
    assert [Text("Hel"), Text("lo")][1..] == [Text("lo")];
    assert [Text("lo")][1..] == [];
    assert [Text("Hel"), Fail("quota")][1..] == [Fail("quota")];
    assert StreamErrorPrefix + "quota" == "Stream error: quota";
    assert RelayFrames([Fail("quota")], sessionId) == [Error("Stream error: quota")];
  }

  /** The generator: format history + new messages, then relay the upstream; a formatting
      failure ends the stream with one `e` frame before any fragment. */
  method GeminiStream(conversation: seq<Message>, upstream: seq<Chunk>, sessionId: int)
    returns (frames: seq<Frame>, collected: string)
    ensures frames == StreamFrames(conversation, upstream, sessionId)
    ensures collected == Joined(frames)
  {
    var formatted := FormatMessages(conversation);
    if formatted.Failure? {
      frames, collected := [Error(StreamErrorPrefix + KeyErrorText(formatted.error))], "";
      assert Joined(frames) == Joined([]) + "";
      return;
    }
    frames, collected := RelayChunks(upstream, sessionId);
    RelayFragments(upstream, sessionId);
  }

  /** `save_log`: insert the turn, commit, then touch the session and commit. A missing
      "content" key or a failing commit rolls back what is not yet committed and is swallowed. */
  method SaveLog(store: ChatStore, sessionId: int, userId: int, last: Message, response: string,
                 clock: Clock, fault: SaveFault)
    requires store.Valid()
    modifies store
    ensures store.Valid()
    ensures store.nextSessionId == old(store.nextSessionId)
    ensures store.logs ==
      if last.content.Some? && fault != LogCommitFails
      then old(store.logs) + [ChatLog(old(store.nextLogId), Some(sessionId), Some(userId),
                                      Some(Turn(last.content.value, response)), clock.logCreated)]
      else old(store.logs)
    ensures store.sessions ==
      if last.content.Some? && fault == NoFault
      then WithUpdatedAt(old(store.sessions), sessionId, clock.sessionTouched)
      else old(store.sessions)
    // A saved turn, no earlier than the session's previous turns, extends its conversation by itself.
    ensures last.content.Some? && fault != LogCommitFails &&
            (forall l :: l in old(store.logs) && LogMatches(l, sessionId, userId) ==> l.createdAt <= clock.logCreated) ==>
      Conversation(store.logs, sessionId, userId) ==
        Conversation(old(store.logs), sessionId, userId) + Turn(last.content.value, response)
  {
    if last.content.None? || fault == LogCommitFails {
      return;
    }
    var log := store.InsertLog(sessionId, userId, Turn(last.content.value, response), clock.logCreated);
    if forall l :: l in old(store.logs) && LogMatches(l, sessionId, userId) ==> l.createdAt <= clock.logCreated {
      ConversationAfterTurn(old(store.logs), log, sessionId, userId);
    }
    if fault == TouchCommitFails {
      return;
    }
    store.Touch(sessionId, clock.sessionTouched);
  }

  /** The session a request that names none gets: the next id, the default title, owned by the user. */
  function NewSession(store: ChatStore, userId: int, now: nat): ChatSession
    reads store
  {
    ChatSession(store.nextSessionId, userId, store.defaultTitle, now, now)
  }

  /**
   * `POST /api/chat/stream`. `userId` is the `user_id` the gate's payload carries,
   * `upstream` what the model yields for this conversation, `clock` the time readings,
   * `fault` where saving the turn fails.
   */
  method StreamChat(store: ChatStore, req: ChatRequest, userId: Option<int>, upstream: seq<Chunk>,
                    clock: Clock, fault: SaveFault) returns (res: StreamResponse)
    requires store.Valid()
    modifies store
    ensures store.Valid()
    // Validation and session lookup fail before anything is written or generated.
    ensures res.Rejected? ==> res.status == 500 && unchanged(store)
    ensures req.messages == [] ==> res == Rejected(500, NoMessages)
    ensures req.messages != [] && !Truthy(userId) ==> res == Rejected(500, NoUserId)
    ensures req.messages != [] && Truthy(userId) ==>
      (res.Rejected? <==>
         (Truthy(req.session) &&
          forall s :: s in old(store.sessions) ==> !SessionMatches(s, req.session.value, userId.value)))
    ensures req.messages != [] && Truthy(userId) && res.Rejected? ==> res.detail == SessionNotFound
    // A truthy id names the session; otherwise a new one is created before streaming.
    ensures res.Streaming? ==>
      && req.messages != [] && Truthy(userId)
      && res.sessionId == (if Truthy(req.session) then req.session.value else old(store.nextSessionId))
      && res.frames == StreamFrames(
           (if Truthy(req.session) then Conversation(old(store.logs), res.sessionId, userId.value) else [])
             + req.messages,
           upstream, res.sessionId)
    // The turn is saved only after a completed stream, and only as far as its commits succeed.
    ensures res.Streaming? ==>
      var created := if Truthy(req.session) then old(store.sessions)
                     else old(store.sessions) + [old(NewSession(store, userId.value, clock.sessionCreated))];
      var last := req.messages[|req.messages| - 1];
      var saved := Completed(res.frames) && last.content.Some? && fault != LogCommitFails;
      && store.logs ==
           (if saved
            then old(store.logs) + [ChatLog(old(store.nextLogId), Some(res.sessionId), Some(userId.value),
                                            Some(Turn(last.content.value, Joined(res.frames))), clock.logCreated)]
            else old(store.logs))
      && store.sessions ==
           (if saved && fault == NoFault then WithUpdatedAt(created, res.sessionId, clock.sessionTouched)
            else created)
  {
    if req.messages == [] {
      return Rejected(500, NoMessages);
    }
    if !Truthy(userId) {
      return Rejected(500, NoUserId);
    }
    var uid := userId.value;
    var history: seq<Message> := [];
    var sessionId: int;
    if Truthy(req.session) {
      sessionId := req.session.value;
      var found := store.FindSession(sessionId, uid);
      if found.None? {
        return Rejected(500, SessionNotFound);
      }
      var logs := store.LogsOf(sessionId, uid);
      history := FlattenLogs(logs);
    } else {
      var created := store.CreateSession(uid, clock.sessionCreated);
      sessionId := created.id;
    }
    var frames, collected := GeminiStream(history + req.messages, upstream, sessionId);
    if Completed(frames) {
      SaveLog(store, sessionId, uid, req.messages[|req.messages| - 1], collected, clock, fault);
    }
    res := Streaming(sessionId, frames);
  }

  /** `GET /api/chat/session/{id}`: the session's title, creation time and conversation. */
  method GetSessionInfo(store: ChatStore, sessionId: int, userId: Option<int>)
    returns (r: Result<SessionInfo, HttpError>)
    ensures !Truthy(userId) ==> r == Failure(HttpError(401, "Unauthorized"))
    ensures Truthy(userId) ==>
      (r.Failure? <==> forall s :: s in store.sessions ==> !SessionMatches(s, sessionId, userId.value))
    ensures Truthy(userId) && r.Failure? ==> r.error == HttpError(404, "Session not found")
    ensures r.Success? ==>
      (Truthy(userId) &&
       exists s :: s in store.sessions && SessionMatches(s, sessionId, userId.value) &&
         r.value == SessionInfo(s.title, s.createdAt, Conversation(store.logs, sessionId, userId.value)))
  {
    if !Truthy(userId) {
      return Failure(HttpError(401, "Unauthorized"));
    }
    var uid := userId.value;
    var session := store.FindSession(sessionId, uid);
    if session.None? {
      return Failure(HttpError(404, "Session not found"));
    }
    var logs := store.LogsOf(sessionId, uid);
    var messages := FlattenLogs(logs);
    r := Success(SessionInfo(session.value.title, session.value.createdAt, messages));
  }

  function Summary(s: ChatSession): SessionSummary {
    SessionSummary(s.id, s.title, s.createdAt)
  }

  /** `GET /api/chat/`: the caller's sessions, and only theirs, in storage order. */
  method GetChatSessions(store: ChatStore, userId: Option<int>) returns (r: seq<SessionSummary>)
    ensures |r| == |Owned(store.sessions, userId)|
    ensures forall k :: 0 <= k < |r| ==> r[k] == Summary(Owned(store.sessions, userId)[k])
    ensures forall x :: x in r ==> exists s :: s in store.sessions && Some(s.userId) == userId && x == Summary(s)
    ensures userId.None? ==> r == []
  {
    var sessions := store.SessionsOf(userId);
    OwnedIff(store.sessions, userId);
    r := [];
    var i := 0;
    while i < |sessions|
      invariant 0 <= i <= |sessions|
      invariant |r| == i && forall k :: 0 <= k < i ==> r[k] == Summary(sessions[k])
    {
      r := r + [Summary(sessions[i])];
      i := i + 1;
    }
    forall x | x in r ensures exists s :: s in store.sessions && Some(s.userId) == userId && x == Summary(s) {
      var k :| 0 <= k < |r| && r[k] == x;
      assert sessions[k] in sessions;
    }
  }
}
