/**
 * History reconstruction: the logs of one session and owner, in creation-time
 * order, flattened into one message list (the loops of `stream_chat_response`
 * and `get_session_info` that extend a list with each log's messages).
 */
module History {
  import opened Wrappers
  import opened Formatter
  import opened Store

  /** What one log adds: its messages, or nothing when the column is NULL or an empty list. */
  function Contribution(l: ChatLog): seq<Message> {
    if l.messages.Some? then l.messages.value else []
  }

  /** The messages of the logs, log after log, each log's list in storage order. */
  function Flatten(logs: seq<ChatLog>): seq<Message>
    decreases |logs|
  {
    if logs == [] then [] else Flatten(logs[..|logs| - 1]) + Contribution(logs[|logs| - 1])
  }

  /** The reconstructed conversation of a session for its owner. */
  function Conversation(logs: seq<ChatLog>, sessionId: int, userId: int): seq<Message> {
    Flatten(SortByTime(Matching(logs, sessionId, userId)))
  }

  /** The flattening loop: extend the list with the messages of every log whose list is truthy. */
  method FlattenLogs(logs: seq<ChatLog>) returns (all: seq<Message>)
    ensures all == Flatten(logs)
  {
    all := [];
    var i := 0;
    while i < |logs|
      invariant 0 <= i <= |logs|
      invariant all == Flatten(logs[..i])
    {
      assert logs[..i + 1][..i] == logs[..i];
      var log := logs[i];
      if log.messages.Some? && log.messages.value != [] {
        all := all + log.messages.value;
      } else {
        assert Contribution(log) == [];
        assert all + [] == all;
      }
      i := i + 1;
    }
    assert logs[..i] == logs;
  }

  /** Flattening distributes over concatenation of log lists. */
  lemma {:induction false} FlattenAppend(a: seq<ChatLog>, b: seq<ChatLog>)
    ensures Flatten(a + b) == Flatten(a) + Flatten(b)
    decreases |b|
  {
    if b == [] {
      assert a + b == a;
    } else {
      var init := b[..|b| - 1];
      assert a + b == (a + init) + [b[|b| - 1]];
      assert (a + b)[..|a + b| - 1] == a + init;
      FlattenAppend(a, init);
    }
  }

  /** A message is in the flattened list exactly when some log contributes it. */
  lemma {:induction false} FlattenMembers(logs: seq<ChatLog>, m: Message)
    ensures m in Flatten(logs) <==> exists l :: l in logs && m in Contribution(l)
    decreases |logs|
  {
    if logs != [] {
      var init := logs[..|logs| - 1];
      assert logs == init + [logs[|logs| - 1]];
      FlattenMembers(init, m);
    }
  }

  /** The conversation holds exactly the messages of the logs of that session and that owner:
      logs of other sessions or other users never leak into it. */
  lemma ConversationMembers(logs: seq<ChatLog>, sessionId: int, userId: int, m: Message)
    ensures m in Conversation(logs, sessionId, userId) <==>
      exists l :: l in logs && LogMatches(l, sessionId, userId) && m in Contribution(l)
  {
    var sel := Matching(logs, sessionId, userId);
    MatchingIff(logs, sessionId, userId);
    SortByTimeCorrect(sel);
    FlattenMembers(SortByTime(sel), m);
    forall l ensures l in SortByTime(sel) <==> l in sel {
      assert l in SortByTime(sel) <==> l in multiset(SortByTime(sel));
    }
  }

  /** A log written for another session or another user leaves the conversation as it was. */
  lemma ConversationIgnoresOthers(logs: seq<ChatLog>, l: ChatLog, sessionId: int, userId: int)
    requires !LogMatches(l, sessionId, userId)
    ensures Conversation(logs + [l], sessionId, userId) == Conversation(logs, sessionId, userId)
  {
    var all := logs + [l];
    assert all[..|all| - 1] == logs && all[|all| - 1] == l;
    assert Matching(all, sessionId, userId) == Matching(logs, sessionId, userId) + [];
    assert Matching(logs, sessionId, userId) + [] == Matching(logs, sessionId, userId);
  }

  /** Appending a turn to a session, no earlier than its previous turns, extends its
      conversation by exactly that turn's messages. */
  lemma ConversationAfterTurn(logs: seq<ChatLog>, l: ChatLog, sessionId: int, userId: int)
    requires LogMatches(l, sessionId, userId)
    requires forall x :: x in logs && LogMatches(x, sessionId, userId) ==> x.createdAt <= l.createdAt
    ensures Conversation(logs + [l], sessionId, userId) == Conversation(logs, sessionId, userId) + Contribution(l)
  {
    var sel := Matching(logs, sessionId, userId);
    assert (logs + [l])[..|logs|] == logs;
    assert Matching(logs + [l], sessionId, userId) == sel + [l];
    MatchingIff(logs, sessionId, userId);
    SortByTimeLatest(sel, l);
    FlattenAppend(SortByTime(sel), [l]);
    assert [l][..0] == [];
  }

  /** A session without logs has the empty conversation. */
  lemma EmptyConversation(logs: seq<ChatLog>, sessionId: int, userId: int)
    requires forall l :: l in logs ==> l.sessionId != Some(sessionId)
    ensures Conversation(logs, sessionId, userId) == []
  {
    MatchingIff(logs, sessionId, userId);
  }
}
