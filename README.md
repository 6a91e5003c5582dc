# Chat backend: the streaming pipeline, message formatter and bearer gate

This project models the three pieces of logic in a small chat backend. The backend
authenticates users with JWT bearer tokens, relays a hosted language model's streamed answer
to the client, and stores every turn of a conversation.

- **Message formatter** (`Formatter`, from `src/chat/utils.py`). `format_messages` is a loop
  that maps each message to an upstream entry. Role `user` stays `user`, `assistant` becomes
  `model`, and every other role is dropped. A missing `role` key raises `KeyError`, and so does
  a missing `content` key on a kept message. The loop is proved against a recursive
  specification `Format`. Lemmas about `Format` state:
  - it distributes over concatenation, which is what formatting history + new messages relies on;
  - when it succeeds and when it raises;
  - it yields exactly one entry per kept message, in order, with the content copied unchanged.
- **Bearer/expiry gate** (`Auth`, from `src/users/utils.py`). `get_current_user`:
  - checks the exact `"Bearer "` prefix;
  - takes the second word of a Python-style whitespace split as the token;
  - calls `decodeJWT`, which keeps the claims while `expires >= now`, gives `None` once
    expiry has passed, and `False` on any exception;
  - answers 401 for every falsy result.

  `encodeJWT` refuses an unset secret or algorithm before it signs `{user_id, expires: now + 3600}`.
  The JWT library is a parameter: `jwtDecode(token)` gives the claims or `None` when the library
  raises, and `sign` produces the token.
- **Session store** (`Store`). The `chat_sessions` and `chat_logs` tables are the fields of a
  class `ChatStore`. The class has auto-increment counters and the queries the routes run:
  - look up a session by (id, owner);
  - list sessions by owner;
  - list the logs of one session and owner, ordered by `created_at`;
  - insert a log;
  - set a session's `updated_at`.

  The record shapes follow `src/models.py`.
- **History** (`History`). The loop that extends a list with each log's messages. A log whose
  `messages` is NULL or empty contributes nothing. `Conversation` is a session's reconstructed
  history.
- **Relay** (`Relay`). The chunk loop of `gemini_stream`:
  - one `0` frame per chunk with non-empty text, in order;
  - the accumulated text is always the concatenation of the fragments emitted so far;
  - then exactly one terminal frame: `d` (finish reason `stop`, zero token counts, the session
    id) on exhaustion, or `e` with `"Stream error: ..."` at the first failure.

  The upstream model is an input sequence of `Text`/`Fail` chunk outcomes.
- **Pipeline** (`Pipeline`). `stream_chat_response` runs these steps in order:
  1. validation;
  2. session resolution: a truthy id is looked up by owner, otherwise a new session is created
     and committed;
  3. history reconstruction;
  4. the generator (formatting, then the relay);
  5. `save_log`. It runs only after a `d` frame and inserts one two-message turn. It then touches
     the session. A failure is rolled back and swallowed.

  `get_session_info` and `get_chat_sessions` are modelled too.

Clock readings are natural-number parameters. Faults in saving the turn are the input
`SaveFault`.

Three behaviours of the code are worth stating outright:
- **Expiry boundary.** `decodeJWT` compares `expires >= time.time()`, so a token whose expiry
  equals the current time is still accepted (`Auth.ExpiryBoundary`).
- **Pre-stream failures.** The route raises its own `HTTPException`s (400 no messages, 401
  missing user id, 404 unknown session) inside `try ... except Exception`. The handler re-raises
  each as status 500 with detail `"Internal server error: <status>: <detail>"`.
- **Session listing.** `get_chat_sessions` passes `updated_at`, but the response model
  `ChatSessionResponse` has only `id`, `title` and `created_at`, so the listing carries those
  three fields.

## Model

| member | source | states |
|---|---|---|
| Formatter.FormatMessages | src/chat/utils.py:21-29 | the append loop returns exactly the functional specification `Format`, including the `KeyError` of the first message missing a needed key |
| Formatter.FormatAppend | src/chat/utils.py:23-27 | formatting `a + b` is formatting `a`, then `b`, joined, with the first failure winning (history + new messages may be formatted as one list) |
| Formatter.FormatSucceedsIff | src/chat/utils.py:23-27 | formatting succeeds iff every message has a role and every user/assistant message has content; other roles never raise |
| Formatter.FormatIsFaithful | src/chat/utils.py:22-29 | a successful result has one entry per user/assistant message, in input order, and none for other roles; user maps to user and assistant to model; parts is `[{text: content}]` with content unchanged |
| Formatter.FormatNeverAssistant | src/chat/utils.py:24-27 | no output entry has role "assistant"; every entry has role user or model and exactly one part |
| Auth.WordsEmptyIff | src/users/utils.py:47 | `split()` yields no word exactly when the string is all whitespace; every word it yields is non-empty and free of whitespace |
| Auth.BearerWords | src/users/utils.py:47 | a header `"Bearer " + rest` splits into "Bearer" followed by the words of `rest` |
| Auth.DecodeJWT | src/users/utils.py:26-31 | the claims are returned only when the library decoded them and they hold "expires"; otherwise `None` (expired) or `False` (anything raised) |
| Auth.DecodeJWTOutcomes | src/users/utils.py:26-31 | `False` exactly when the library raised or "expires" is missing or not comparable with a number; `None` exactly when a comparable "expires" lies before now; the claims otherwise |
| Auth.ExpiryBoundary | src/users/utils.py:29 | a numeric expiry at or after `now` gives the claims, earlier gives `None`; expiry equal to `now` is accepted |
| Auth.GetCurrentUser | src/users/utils.py:41-56 | every refusal is status 401; an accepted payload is the library's claims for the second word of the header, unchanged and non-empty |
| Auth.MissingBearerIff | src/users/utils.py:42-45 | "Missing bearer token" is answered iff the header is absent or does not start with exactly "Bearer " |
| Auth.TokenIsSecondWord | src/users/utils.py:47-48 | after the prefix the token is the first word of the rest; a rest of only whitespace fails with `IndexError`, outside the 401 handling |
| Auth.GateAcceptsIff | src/users/utils.py:47-56 | for every header `"Bearer " + rest` whose rest holds a word, with the token the first word of rest (any whitespace around it), the gate accepts iff `decodeJWT` returns claims; every falsy result (None, False, empty object) becomes 401 "Invalid or expired token" |
| Auth.EncodeJWT | src/users/utils.py:13-24 | fails with the configuration `ValueError` iff secret or algorithm is unset or empty; otherwise signs `{user_id, expires: now + 3600}` with them |
| Auth.IssuedTokenLifetime | src/users/utils.py:13-31 | a token issued at time t, decoded back by the library, is accepted by the gate exactly while now <= t + 3600, and refused with 401 afterwards |
| Store.SortByTimeCorrect | src/chat/router.py:47-50 | the ordered log query returns the selected logs, each once, in ascending `created_at` |
| Store.SortByTimeLatest | src/chat/router.py:104-117 | a log no earlier than every other log comes last in the ordered list |
| Store.MatchingIff | src/chat/router.py:47-50 | the log query selects exactly the logs whose session id and owner both match |
| Store.OwnedIff | src/chat/router.py:176 | the session listing selects exactly the owner's sessions; a missing owner id selects none |
| Store.ChatStore.constructor | src/models.py:24-54 | an empty store with both id counters at 1 and the fixed default title |
| Store.ChatStore.CreateSession | src/chat/router.py:57-66 | appends one session owned by the user, with the next id, the default title and both timestamps `now`; logs are unchanged |
| Store.ChatStore.FindSession | src/chat/router.py:41-46 | returns a stored session with that id and owner, or none when no stored session has both |
| Store.ChatStore.SessionsOf | src/chat/router.py:176 | returns the sessions of that owner in storage order |
| Store.ChatStore.LogsOf | src/chat/router.py:47-50 | returns the logs of that session and owner, ordered by creation time |
| Store.ChatStore.InsertLog | src/chat/router.py:106-117 | appends one log owned by (session, user) with the given messages and time, with the next log id; sessions are unchanged |
| Store.ChatStore.Touch | src/chat/router.py:119-120 | sets `updated_at` of the session with that id; every other session and all logs are unchanged |
| History.FlattenLogs | src/chat/router.py:52-54 | the extend loop returns the messages of the logs, log after log; NULL or empty lists contribute nothing |
| History.FlattenAppend | src/chat/router.py:162-165 | flattening two lists of logs is flattening each and concatenating |
| History.FlattenMembers | src/chat/router.py:162-165 | a message is in the flattened list iff some log's message list contains it |
| History.ConversationMembers | src/chat/router.py:47-54 | a session's conversation holds exactly the messages of logs of that session and that owner |
| History.ConversationIgnoresOthers | src/chat/router.py:47-50 | a log of another session or user never changes a conversation |
| History.ConversationAfterTurn | src/chat/router.py:104-120 | a new log of the session, no earlier than its other logs, extends the conversation by exactly its messages |
| History.EmptyConversation | src/chat/router.py:37-38 | a session without logs has the empty conversation |
| Relay.RelayChunks | src/chat/router.py:67-93 | the relay loop emits exactly the specified frames and accumulates the specified text; in the loop the accumulator always equals the joined fragments |
| Relay.RelayWellFramed | src/chat/router.py:80-102 | every stream is non-empty fragments followed by exactly one terminal frame, which is last |
| Relay.RelayTerminal | src/chat/router.py:85-102 | the terminal frame is d with finish reason stop, zero token counts and the session id iff no chunk failed; otherwise it is "Stream error: " and the first failure's reason |
| Relay.BeforeFailureIsPrefix | src/chat/router.py:80-83 | consumption stops at the first failure: the consumed chunks are a prefix, followed by that failure |
| Relay.RelayFragments | src/chat/router.py:80-83 | the fragments are the non-empty chunk texts before the first failure, in order, and the accumulated text is their concatenation |
| Pipeline.StreamFramesShape | src/chat/router.py:72-102 | the stream is well framed; it completes iff formatting succeeds and no chunk fails, and its d frame carries the session id |
| Pipeline.StreamExamples | src/chat/router.py:80-93 | chunks "Hel", "lo" give two fragments then d, with "Hello" accumulated; a failure after "Hel" gives that fragment then one e frame |
| Pipeline.GeminiStream | src/chat/router.py:69-102 | the generator yields the specified frames (one e frame when formatting raises) and accumulates exactly the joined fragments |
| Pipeline.SaveLog | src/chat/router.py:95-124 | inserts one turn `[user: last content, assistant: response]` unless content is missing or the first commit fails; touches the session only if both commits succeed; a saved turn extends the conversation by those two messages |
| Pipeline.StreamChat | src/chat/router.py:19-136 | pre-stream failures are 500 with the wrapped detail and change nothing; the session is resolved by owner or created; frames follow the reconstructed conversation; a log is written only after a d frame, with the accumulated text |
| Pipeline.GetSessionInfo | src/chat/router.py:139-171 | 401 without a truthy user id, 404 unless the user owns the session, otherwise its title, creation time and conversation |
| Pipeline.GetChatSessions | src/chat/router.py:173-187 | one summary (id, title, created_at) per session of the caller, in storage order, and no other user's session |

## Left out

- The upstream generation API (`genai.configure`, `GenerativeModel`, `generate_content`) is not modelled. Its responses are the input sequence of chunk outcomes. `generate_response` in `src/chat/utils.py` is not used by any route and is not modelled.
- JWT signing and verification are not modelled, because they are cryptography. They are the function parameters `sign` and `jwtDecode`. Password hashing with bcrypt is not part of this model.
- `src/users/router.py` (account creation and login) is ORM glue around hashing and token issuing, and is not part of this model.
- SQLAlchemy sessions, transactions and commits are not modelled. Store operations always succeed, except the two commits of saving a turn, which fail when `SaveFault` says so. A database error during session lookup or creation, and a body that is not JSON, would surface as 500. These cases are not modelled.
- `ORDER BY created_at` leaves ties unspecified. The model keeps logs with equal times in storage order.
- The session listing query (`src/chat/router.py:176`) has no `ORDER BY`, so SQL leaves its order unspecified. The model fixes storage order (`Store.ChatStore.SessionsOf`, `Pipeline.GetChatSessions`).
- `Auth.DecodeJWT`: clock readings and the "expires" claim are integers, so `time.time()`'s fractional seconds are not modelled.
- The `except jwt.PyJWTError` branch of `get_current_user` is not modelled. It is unreachable because `decodeJWT` catches every exception.
- JSON encoding of frame payloads (`json.dumps`) and the exact line text are not modelled. Frames are a datatype with a type tag. The response headers, including `x-session-id`, are not modelled either; that header carries the resolved session id.
- Request fields of other JSON types are not modelled: a string session id, or a `messages` value that is not a list of objects. The user id is the integer the token's `user_id` names; the token carries it as a string and the database compares it with the integer column. The route tests this id with `if not user_id`. For the string, only the empty string is falsy, so `"0"` passes. The model's integer 0 is falsy. These differ only for a token carrying user id `"0"`, and `encodeJWT` never issues one because ids start at 1.
- Column options are not modelled: the cascade delete of logs (no code path deletes a session), server-side defaults, and the `onupdate` hook of `updated_at`. The title default is computed once when the program starts; it is the store's `defaultTitle`.
- Concurrency is not modelled: lazy consumption of the stream by the transport, client disconnects, and concurrent requests on one session.
- Splitting the header treats as whitespace the characters Python's `str.split()` does; no Unicode normalisation is modelled.
