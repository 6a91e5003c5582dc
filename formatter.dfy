/**
 * The message formatter of the chat service (`format_messages`): maps the
 * application's chat messages onto the entries the upstream model expects.
 */
module Formatter {
  import opened Wrappers

  /**
   * A chat message as the JSON object the client (or a stored log) supplies;
   * either key may be missing, and looking a missing key up raises `KeyError`.
   */
  datatype Message = Message(role: Option<string>, content: Option<string>)

  /** One element of an entry's `parts` list: `{"text": ...}`. */
  datatype Part = Part(text: string)

  /** An entry in the upstream model's format: `{"role": ..., "parts": [...]}`. */
  datatype Entry = Entry(role: string, parts: seq<Part>)

  /** A failed formatting pass carries the name of the key whose lookup raised. */
  type Formatted = Result<seq<Entry>, string>

  /** A message the formatter forwards: its role is exactly "user" or "assistant". */
  predicate Kept(m: Message) {
    m.role == Some("user") || m.role == Some("assistant")
  }

  /** The role name of the upstream vocabulary for a kept message. */
  function UpstreamRole(m: Message): string
    requires Kept(m)
  {
    if m.role == Some("user") then "user" else "model"
  }

  /** What one message contributes: at most one entry, or the key that is missing. */
  function FormatOne(m: Message): Formatted {
    match m.role
    case None => Failure("role")
    case Some(r) =>
      if r != "user" && r != "assistant" then Success([])
      else if m.content.None? then Failure("content")
      else Success([Entry(if r == "user" then "user" else "model", [Part(m.content.value)])])
  }

  /** Sequencing of two formatting passes: the first failure wins. */
  function Then(a: Formatted, b: Formatted): Formatted {
    if a.Failure? then a
    else if b.Failure? then b
    else Success(a.value + b.value)
  }

  /** Functional specification of `format_messages`, one message at a time, first to last. */
  function Format(msgs: seq<Message>): Formatted
    decreases |msgs|
  {
    if msgs == [] then Success([]) else Then(FormatOne(msgs[0]), Format(msgs[1..]))
  }

  /** Formatting distributes over concatenation: formatting history + new messages
      equals formatting each list and joining the results. */
  lemma {:induction false} FormatAppend(a: seq<Message>, b: seq<Message>)
    ensures Format(a + b) == Then(Format(a), Format(b))
    decreases |a|
  {
    if a == [] {
      assert a + b == b;
      if Format(b).Success? { assert [] + Format(b).value == Format(b).value; }
    } else {
      assert (a + b)[0] == a[0];
      assert (a + b)[1..] == a[1..] + b;
      FormatAppend(a[1..], b);
      ThenAssociative(FormatOne(a[0]), Format(a[1..]), Format(b));
    }
  }

  lemma ThenAssociative(x: Formatted, y: Formatted, z: Formatted)
    ensures Then(x, Then(y, z)) == Then(Then(x, y), z)
  {
    if x.Success? && y.Success? && z.Success? {
      assert x.value + (y.value + z.value) == (x.value + y.value) + z.value;
    }
  }

  lemma FormatSingle(m: Message)
    ensures Format([m]) == FormatOne(m)
  {
    assert [m][1..] == [];
    if FormatOne(m).Success? { assert FormatOne(m).value + [] == FormatOne(m).value; }
  }

  /** Formatting succeeds exactly when every message has a role and every kept one has content;
      messages with any other role are dropped without error. */
  lemma {:induction false} FormatSucceedsIff(msgs: seq<Message>)
    ensures Format(msgs).Success? <==>
      forall i :: 0 <= i < |msgs| ==> msgs[i].role.Some? && (Kept(msgs[i]) ==> msgs[i].content.Some?)
    decreases |msgs|
  {
    if msgs != [] {
      FormatSucceedsIff(msgs[1..]);
      if Format(msgs).Success? {
        forall i | 0 <= i < |msgs|
          ensures msgs[i].role.Some? && (Kept(msgs[i]) ==> msgs[i].content.Some?)
        {
          if i > 0 { assert msgs[i] == msgs[1..][i - 1]; }
        }
      } else if FormatOne(msgs[0]).Success? {
        var j :| 0 <= j < |msgs[1..]| && !(msgs[1..][j].role.Some? && (Kept(msgs[1..][j]) ==> msgs[1..][j].content.Some?));
        assert msgs[j + 1] == msgs[1..][j];
      }
    }
  }

  /** The indices of the kept messages, in increasing order. */
  function KeptIndices(msgs: seq<Message>): (idx: seq<nat>)
    decreases |msgs|
  {
    if msgs == [] then []
    else (if Kept(msgs[0]) then [0] else []) + Shift(KeptIndices(msgs[1..]))
  }

  /** Every index moved one place to the right. */
  function Shift(idx: seq<nat>): (r: seq<nat>)
    ensures |r| == |idx| && forall k :: 0 <= k < |idx| ==> r[k] == idx[k] + 1
  {
    seq(|idx|, k requires 0 <= k < |idx| => idx[k] + 1)
  }

  /** `idx` lists, in strictly increasing order, exactly the positions of the kept messages. */
  ghost predicate ListsKept(msgs: seq<Message>, idx: seq<nat>) {
    && (forall k :: 0 <= k < |idx| ==> idx[k] < |msgs| && Kept(msgs[idx[k]]))
    && (forall k, l :: 0 <= k < l < |idx| ==> idx[k] < idx[l])
    && (forall j :: 0 <= j < |msgs| && Kept(msgs[j]) ==> j in idx)
  }

  /** The k-th entry of `out` is the message at `idx[k]`, role-mapped, its content wrapped. */
  ghost predicate EntriesMatch(msgs: seq<Message>, idx: seq<nat>, out: seq<Entry>) {
    && |idx| == |out|
    && (forall k :: 0 <= k < |idx| ==> idx[k] < |msgs| && Kept(msgs[idx[k]]))
    && (forall k :: 0 <= k < |idx| ==>
          msgs[idx[k]].content.Some? &&
          out[k] == Entry(UpstreamRole(msgs[idx[k]]), [Part(msgs[idx[k]].content.value)]))
  }

  lemma {:induction false} KeptIndicesBounded(msgs: seq<Message>)
    ensures forall k :: 0 <= k < |KeptIndices(msgs)| ==>
      KeptIndices(msgs)[k] < |msgs| && Kept(msgs[KeptIndices(msgs)[k]])
    decreases |msgs|
  {
    if msgs != [] {
      var tail := msgs[1..];
      KeptIndicesBounded(tail);
      var ti := KeptIndices(tail);
      var head: seq<nat> := if Kept(msgs[0]) then [0] else [];
      var idx := KeptIndices(msgs);
      assert idx == head + Shift(ti);
      forall k | 0 <= k < |idx| ensures idx[k] < |msgs| && Kept(msgs[idx[k]]) {
        if k >= |head| {
          assert idx[k] == ti[k - |head|] + 1;
          assert msgs[idx[k]] == tail[ti[k - |head|]];
        }
      }
    }
  }

  lemma {:induction false} KeptIndicesIncreasing(msgs: seq<Message>)
    ensures forall k, l :: 0 <= k < l < |KeptIndices(msgs)| ==> KeptIndices(msgs)[k] < KeptIndices(msgs)[l]
    decreases |msgs|
  {
    if msgs != [] {
      var tail := msgs[1..];
      KeptIndicesIncreasing(tail);
      var ti := KeptIndices(tail);
      var head: seq<nat> := if Kept(msgs[0]) then [0] else [];
      var idx := KeptIndices(msgs);
      assert idx == head + Shift(ti);
      forall k, l | 0 <= k < l < |idx| ensures idx[k] < idx[l] {
        assert idx[l] == ti[l - |head|] + 1;
        if k >= |head| { assert idx[k] == ti[k - |head|] + 1; }
      }
    }
  }

  lemma {:induction false} KeptIndicesComplete(msgs: seq<Message>)
    ensures forall j :: 0 <= j < |msgs| && Kept(msgs[j]) ==> j in KeptIndices(msgs)
    decreases |msgs|
  {
    if msgs != [] {
      var tail := msgs[1..];
      KeptIndicesComplete(tail);
      var ti := KeptIndices(tail);
      var head: seq<nat> := if Kept(msgs[0]) then [0] else [];
      var idx := KeptIndices(msgs);
      assert idx == head + Shift(ti);
      forall j | 0 <= j < |msgs| && Kept(msgs[j]) ensures j in idx {
        if j == 0 {
          assert idx[0] == 0;
        } else {
          assert tail[j - 1] == msgs[j];
          var k' :| 0 <= k' < |ti| && ti[k'] == j - 1;
          assert idx[|head| + k'] == j;
        }
      }
    }
  }

  lemma {:induction false} FormatEntriesMatch(msgs: seq<Message>)
    requires Format(msgs).Success?
    ensures EntriesMatch(msgs, KeptIndices(msgs), Format(msgs).value)
    decreases |msgs|
  {
    if msgs != [] {
      var tail := msgs[1..];
      FormatEntriesMatch(tail);
      var ti, to := KeptIndices(tail), Format(tail).value;
      var head: seq<nat> := if Kept(msgs[0]) then [0] else [];
      var idx, out := KeptIndices(msgs), Format(msgs).value;
      assert idx == head + Shift(ti);
      assert out == FormatOne(msgs[0]).value + to;
      forall k | 0 <= k < |idx|
        ensures idx[k] < |msgs| && Kept(msgs[idx[k]]) && msgs[idx[k]].content.Some?
        ensures out[k] == Entry(UpstreamRole(msgs[idx[k]]), [Part(msgs[idx[k]].content.value)])
      {
        if k >= |head| {
          var k' := k - |head|;
          assert idx[k] == ti[k'] + 1 && out[k] == to[k'];
          assert msgs[idx[k]] == tail[ti[k']];
        }
      }
    }
  }

  /** A successful pass yields one entry per kept message, in input order, with role "user"
      mapped to "user", "assistant" mapped to "model", and the content copied unchanged. */
  lemma {:induction false} FormatIsFaithful(msgs: seq<Message>)
    requires Format(msgs).Success?
    ensures ListsKept(msgs, KeptIndices(msgs))
    ensures EntriesMatch(msgs, KeptIndices(msgs), Format(msgs).value)
  {
    KeptIndicesBounded(msgs);
    KeptIndicesIncreasing(msgs);
    KeptIndicesComplete(msgs);
    FormatEntriesMatch(msgs);
  }

  /** No entry the formatter produces carries the application role "assistant". */
  lemma {:induction false} FormatNeverAssistant(msgs: seq<Message>)
    requires Format(msgs).Success?
    ensures forall e :: e in Format(msgs).value ==> e.role in {"user", "model"} && |e.parts| == 1
  {
    FormatIsFaithful(msgs);
    var idx, out := KeptIndices(msgs), Format(msgs).value;
    forall e | e in out ensures e.role in {"user", "model"} && |e.parts| == 1 {
      var k :| 0 <= k < |out| && out[k] == e;
    }
  }

  /**
   * The loop of `format_messages`: walk the messages in order and append one
   * entry per kept message; a missing key ends the pass with `KeyError`.
   */
  method FormatMessages(msgs: seq<Message>) returns (r: Formatted)
    ensures r == Format(msgs)
  {
    var formatted: seq<Entry> := [];
    var i := 0;
    while i < |msgs|
      invariant 0 <= i <= |msgs|
      invariant Format(msgs[..i]) == Success(formatted)
    {
      var m := msgs[i];
      FormatAppend(msgs[..i], [m]);
      assert msgs[..i + 1] == msgs[..i] + [m];
      FormatSingle(m);
      if m.role.None? {
        FormatAppend(msgs[..i + 1], msgs[i + 1..]);
        assert msgs == msgs[..i + 1] + msgs[i + 1..];
        return Failure("role");
      }
      var role := m.role.value;
      if role == "user" || role == "assistant" {
        if m.content.None? {
          FormatAppend(msgs[..i + 1], msgs[i + 1..]);
          assert msgs == msgs[..i + 1] + msgs[i + 1..];
          return Failure("content");
        }
        var mapped := if role == "user" then "user" else "model";
        formatted := formatted + [Entry(mapped, [Part(m.content.value)])];
      } else {
        assert formatted + [] == formatted;
      }
      i := i + 1;
    }
    assert msgs[..i] == msgs;
    r := Success(formatted);
  }
}
