/**
 * The session store: the `chat_sessions` and `chat_logs` tables and the
 * queries the chat routes run against them, as an in-memory object.
 */
module Store {
  import opened Wrappers
  import opened Formatter

  /** A row of `chat_sessions`. */
  datatype ChatSession = ChatSession(id: int, userId: int, title: string, createdAt: nat, updatedAt: nat)

  /** A row of `chat_logs`; the session, the owner and the message list are nullable columns. */
  datatype ChatLog = ChatLog(id: int, sessionId: Option<int>, userId: Option<int>,
                             messages: Option<seq<Message>>, createdAt: nat)

  /** The session is the one with this id and this owner. */
  predicate SessionMatches(s: ChatSession, id: int, userId: int) {
    s.id == id && s.userId == userId
  }

  /** The log belongs to this session and this owner. */
  predicate LogMatches(l: ChatLog, sessionId: int, userId: int) {
    l.sessionId == Some(sessionId) && l.userId == Some(userId)
  }

  /** The logs of one session and owner, in storage order. */
  function Matching(logs: seq<ChatLog>, sessionId: int, userId: int): (r: seq<ChatLog>)
    decreases |logs|
  {
    if logs == [] then []
    else
      var last := logs[|logs| - 1];
      Matching(logs[..|logs| - 1], sessionId, userId) + (if LogMatches(last, sessionId, userId) then [last] else [])
  }

  /** The sessions a (possibly NULL) owner id selects; NULL equals nothing in SQL. */
  function Owned(sessions: seq<ChatSession>, userId: Option<int>): (r: seq<ChatSession>)
    decreases |sessions|
  {
    if sessions == [] then []
    else
      var last := sessions[|sessions| - 1];
      Owned(sessions[..|sessions| - 1], userId) + (if Some(last.userId) == userId then [last] else [])
  }

  /** The sessions after `updated_at` of the session with id `id` is set to `now`. */
  function WithUpdatedAt(sessions: seq<ChatSession>, id: int, now: nat): (r: seq<ChatSession>)
    ensures |r| == |sessions|
  {
    seq(|sessions|, i requires 0 <= i < |sessions| =>
      if sessions[i].id == id then sessions[i].(updatedAt := now) else sessions[i])
  }

  ghost predicate SortedByTime(logs: seq<ChatLog>) {
    forall i, j :: 0 <= i < j < |logs| ==> logs[i].createdAt <= logs[j].createdAt
  }

  /** Insert `x` into a time-ordered list after every log no later than it. */
  function InsertByTime(sorted: seq<ChatLog>, x: ChatLog): (r: seq<ChatLog>)
    decreases |sorted|
  {
    if sorted == [] || sorted[|sorted| - 1].createdAt <= x.createdAt then sorted + [x]
    else InsertByTime(sorted[..|sorted| - 1], x) + [sorted[|sorted| - 1]]
  }

  /** `ORDER BY created_at ASC`, with logs of equal time kept in storage order. */
  function SortByTime(logs: seq<ChatLog>): (r: seq<ChatLog>)
    decreases |logs|
  {
    if logs == [] then [] else InsertByTime(SortByTime(logs[..|logs| - 1]), logs[|logs| - 1])
  }

  lemma {:induction false} InsertByTimePermutes(sorted: seq<ChatLog>, x: ChatLog)
    ensures multiset(InsertByTime(sorted, x)) == multiset(sorted) + multiset{x}
    decreases |sorted|
  {
    if sorted != [] && sorted[|sorted| - 1].createdAt > x.createdAt {
      var init, last := sorted[..|sorted| - 1], sorted[|sorted| - 1];
      assert sorted == init + [last];
      InsertByTimePermutes(init, x);
    }
  }

  lemma {:induction false} InsertByTimeBounded(sorted: seq<ChatLog>, x: ChatLog, bound: nat)
    requires forall i :: 0 <= i < |sorted| ==> sorted[i].createdAt <= bound
    requires x.createdAt <= bound
    ensures forall i :: 0 <= i < |InsertByTime(sorted, x)| ==> InsertByTime(sorted, x)[i].createdAt <= bound
    decreases |sorted|
  {
    if sorted != [] && sorted[|sorted| - 1].createdAt > x.createdAt {
      InsertByTimeBounded(sorted[..|sorted| - 1], x, bound);
    }
  }

  lemma {:induction false} InsertByTimeSorted(sorted: seq<ChatLog>, x: ChatLog)
    requires SortedByTime(sorted)
    ensures SortedByTime(InsertByTime(sorted, x))
    decreases |sorted|
  {
    if sorted != [] && sorted[|sorted| - 1].createdAt > x.createdAt {
      var init, last := sorted[..|sorted| - 1], sorted[|sorted| - 1];
      InsertByTimeSorted(init, x);
      InsertByTimeBounded(init, x, last.createdAt);
      var r' := InsertByTime(init, x);
      var r := r' + [last];
      forall i, j | 0 <= i < j < |r| ensures r[i].createdAt <= r[j].createdAt {
        assert r[i] == r'[i];
        if j < |r| - 1 { assert r[j] == r'[j]; }
      }
    }
  }

  /** The ordering query returns every log it was given, once, in creation-time order. */
  lemma {:induction false} SortByTimeCorrect(logs: seq<ChatLog>)
    ensures SortedByTime(SortByTime(logs))
    ensures multiset(SortByTime(logs)) == multiset(logs)
    decreases |logs|
  {
    if logs != [] {
      var init, last := logs[..|logs| - 1], logs[|logs| - 1];
      assert logs == init + [last];
      SortByTimeCorrect(init);
      InsertByTimeSorted(SortByTime(init), last);
      InsertByTimePermutes(SortByTime(init), last);
    }
  }

  /** A log no earlier than every log already there goes to the end of the ordered list. */
  lemma SortByTimeLatest(logs: seq<ChatLog>, x: ChatLog)
    requires forall l :: l in logs ==> l.createdAt <= x.createdAt
    ensures SortByTime(logs + [x]) == SortByTime(logs) + [x]
  {
    assert (logs + [x])[..|logs|] == logs;
    var s := SortByTime(logs);
    SortByTimeCorrect(logs);
    if s != [] {
      assert s[|s| - 1] in multiset(logs);
    }
  }

  /** The log query selects exactly the logs of the given session and owner. */
  lemma {:induction false} MatchingIff(logs: seq<ChatLog>, sessionId: int, userId: int)
    ensures forall l :: l in Matching(logs, sessionId, userId) <==> l in logs && LogMatches(l, sessionId, userId)
    decreases |logs|
  {
    if logs != [] {
      var init := logs[..|logs| - 1];
      assert logs == init + [logs[|logs| - 1]];
      MatchingIff(init, sessionId, userId);
    }
  }

  /** The listing query selects exactly the sessions of the given owner; no NULL owner selects any. */
  lemma {:induction false} OwnedIff(sessions: seq<ChatSession>, userId: Option<int>)
    ensures forall s :: s in Owned(sessions, userId) <==> s in sessions && Some(s.userId) == userId
    ensures userId.None? ==> Owned(sessions, userId) == []
    decreases |sessions|
  {
    if sessions != [] {
      var init := sessions[..|sessions| - 1];
      assert sessions == init + [sessions[|sessions| - 1]];
      OwnedIff(init, userId);
    }
  }

  /** The chat tables, with SQL's auto-increment counters for the two id columns. */
  class ChatStore {
    var sessions: seq<ChatSession>
    var logs: seq<ChatLog>
    var nextSessionId: int
    var nextLogId: int
    /** The `title` column default, fixed once when the program starts. */
    const defaultTitle: string

    /** Ids are positive, strictly increasing in storage order, and below the next id to hand out. */
    ghost predicate Valid()
      reads this
    {
      && 1 <= nextSessionId && 1 <= nextLogId
      && (forall i :: 0 <= i < |sessions| ==> 1 <= sessions[i].id < nextSessionId)
      && (forall i, j :: 0 <= i < j < |sessions| ==> sessions[i].id < sessions[j].id)
      && (forall i :: 0 <= i < |logs| ==> 1 <= logs[i].id < nextLogId)
      && (forall i, j :: 0 <= i < j < |logs| ==> logs[i].id < logs[j].id)
    }

    constructor (title: string)
      ensures Valid() && sessions == [] && logs == [] && defaultTitle == title
      ensures nextSessionId == 1 && nextLogId == 1
    {
      sessions, logs := [], [];
      nextSessionId, nextLogId := 1, 1;
      defaultTitle := title;
    }

    /** Insert and commit a new session owned by `userId`, both timestamps `now`. */
    method CreateSession(userId: int, now: nat) returns (s: ChatSession)
      requires Valid()
      modifies this
      ensures Valid()
      ensures s == ChatSession(old(nextSessionId), userId, defaultTitle, now, now)
      ensures sessions == old(sessions) + [s] && logs == old(logs) && nextLogId == old(nextLogId)
      ensures forall t :: t in old(sessions) ==> t.id != s.id
    {
      s := ChatSession(nextSessionId, userId, defaultTitle, now, now);
      sessions := sessions + [s];
      nextSessionId := nextSessionId + 1;
    }

    /** `query(ChatSessions).filter(id == id, user_id == userId).first()`. */
    method FindSession(id: int, userId: int) returns (r: Option<ChatSession>)
      ensures r.Some? ==> r.value in sessions && SessionMatches(r.value, id, userId)
      ensures r.None? ==> forall s :: s in sessions ==> !SessionMatches(s, id, userId)
    {
      var i := 0;
      while i < |sessions|
        invariant 0 <= i <= |sessions|
        invariant forall k :: 0 <= k < i ==> !SessionMatches(sessions[k], id, userId)
      {
        if SessionMatches(sessions[i], id, userId) {
          return Some(sessions[i]);
        }
        i := i + 1;
      }
      r := None;
    }

    /** `query(ChatSessions).filter(user_id == userId).all()`. */
    method SessionsOf(userId: Option<int>) returns (r: seq<ChatSession>)
      ensures r == Owned(sessions, userId)
    {
      r := [];
      var i := 0;
      while i < |sessions|
        invariant 0 <= i <= |sessions|
        invariant r == Owned(sessions[..i], userId)
      {
        assert sessions[..i + 1][..i] == sessions[..i];
        if Some(sessions[i].userId) == userId {
          r := r + [sessions[i]];
        }
        i := i + 1;
      }
      assert sessions[..i] == sessions;
    }

    /** `query(ChatLogs).filter(session_id == sessionId, user_id == userId)
        .order_by(created_at.asc()).all()`. */
    method LogsOf(sessionId: int, userId: int) returns (r: seq<ChatLog>)
      ensures r == SortByTime(Matching(logs, sessionId, userId))
    {
      r := [];
      ghost var selected: seq<ChatLog> := [];
      var i := 0;
      while i < |logs|
        invariant 0 <= i <= |logs|
        invariant selected == Matching(logs[..i], sessionId, userId)
        invariant r == SortByTime(selected)
      {
        assert logs[..i + 1][..i] == logs[..i];
        if LogMatches(logs[i], sessionId, userId) {
          assert (selected + [logs[i]])[..|selected|] == selected;
          r := InsertByTime(r, logs[i]);
          selected := selected + [logs[i]];
        }
        i := i + 1;
      }
      assert logs[..i] == logs;
    }

    /** Insert and commit one log of this session and owner. */
    method InsertLog(sessionId: int, userId: int, messages: seq<Message>, now: nat) returns (l: ChatLog)
      requires Valid()
      modifies this
      ensures Valid()
      ensures l == ChatLog(old(nextLogId), Some(sessionId), Some(userId), Some(messages), now)
      ensures logs == old(logs) + [l] && sessions == old(sessions) && nextSessionId == old(nextSessionId)
    {
      l := ChatLog(nextLogId, Some(sessionId), Some(userId), Some(messages), now);
      logs := logs + [l];
      nextLogId := nextLogId + 1;
    }

    /** Set `updated_at` of the session with this id and commit; nothing else changes. */
    method Touch(sessionId: int, now: nat)
      requires Valid()
      modifies this
      ensures Valid()
      ensures sessions == WithUpdatedAt(old(sessions), sessionId, now) && logs == old(logs)
      ensures nextSessionId == old(nextSessionId) && nextLogId == old(nextLogId)
    {
      var updated := sessions;
      var i := 0;
      while i < |updated|
        invariant 0 <= i <= |updated| && |updated| == |sessions|
        invariant forall k :: 0 <= k < |updated| ==>
          updated[k] == if k < i && sessions[k].id == sessionId then sessions[k].(updatedAt := now) else sessions[k]
      {
        if updated[i].id == sessionId {
          updated := updated[i := updated[i].(updatedAt := now)];
        }
        i := i + 1;
      }
      assert updated == WithUpdatedAt(sessions, sessionId, now);
      sessions := updated;
    }
  }
}
