/** The four message roles of an agent history and the pairing of tool calls with their results
    (src/aurora_agent/messages.py). */
module Messages {
  import opened Common

  type CallId = string

  /** Arguments are frozen JSON; only their identity matters here. */
  datatype ToolCall = ToolCall(callId: CallId, name: string, arguments: string)

  /** One constructor per role, carrying exactly the fields the role admits. */
  datatype ChatMessage =
    | System(content: string)
    | Input(content: string)
    | Assistant(content: string, calls: seq<ToolCall>)
    | ToolResult(callId: CallId, content: string, isError: bool)

  function Ids(calls: seq<ToolCall>): set<CallId> {
    set c | c in calls :: c.callId
  }

  predicate Distinct(calls: seq<ToolCall>) {
    forall i, j :: 0 <= i < j < |calls| ==> calls[i].callId != calls[j].callId
  }

  lemma DistinctAppend(calls: seq<ToolCall>, call: ToolCall)
    requires Distinct(calls) && call.callId !in Ids(calls)
    ensures Distinct(calls + [call])
  {
    assert forall c :: c in calls ==> c.callId in Ids(calls);
  }

  // ---------------------------------------------------------------- the validator's state

  /** What the validator has gathered after a prefix: every proposed identity, and the open ones. */
  datatype Pairing = Pairing(seen: set<CallId>, pending: set<CallId>)

  function Accept(p: Pairing, m: ChatMessage): Option<Pairing> {
    match m
    case System(_) => None
    case ToolResult(id, _, _) =>
      if id in p.pending then Some(p.(pending := p.pending - {id})) else None
    case Input(_) =>
      if p.pending == {} then Some(p) else None
    case Assistant(_, calls) =>
      if p.pending == {} && Distinct(calls) && Ids(calls) !! p.seen
      then Some(Pairing(p.seen + Ids(calls), Ids(calls))) else None
  }

  /** The pairing reached after a whole history, or None where the validator raises. */
  function Pair(messages: seq<ChatMessage>): Option<Pairing> {
    if messages == [] then Some(Pairing({}, {}))
    else
      match Pair(messages[..|messages| - 1])
      case None => None
      case Some(p) => Accept(p, messages[|messages| - 1])
  }

  lemma PairAppend(messages: seq<ChatMessage>, m: ChatMessage)
    ensures Pair(messages + [m]) ==
            if Pair(messages).None? then None else Accept(Pair(messages).value, m)
  {
    assert (messages + [m])[..|messages|] == messages;
  }

  /** A rejected prefix cannot be repaired by what follows. */
  lemma {:induction false} RejectedForGood(messages: seq<ChatMessage>, n: nat)
    requires n <= |messages| && Pair(messages[..n]).None?
    ensures Pair(messages).None?
  {
    if n == |messages| {
      assert messages[..n] == messages;
    } else {
      var front := messages[..|messages| - 1];
      assert front[..n] == messages[..n];
      RejectedForGood(front, n);
    }
  }

  lemma AcceptInput(state: Pairing, m: ChatMessage)
    requires m.Input? && state.pending == {}
    ensures Accept(state, m) == Some(state)
  {}

  /** Inputs extend a history exactly when nothing is open. */
  lemma {:induction false} PairInputs(messages: seq<ChatMessage>, inputs: seq<ChatMessage>)
    requires Pair(messages).Some? && Pair(messages).value.pending == {}
    requires forall m :: m in inputs ==> m.Input?
    ensures Pair(messages + inputs) == Pair(messages)
  {
    hide Pair, Accept;
    if inputs == [] {
      assert messages + inputs == messages;
    } else {
      var n := |inputs| - 1;
      assert inputs[n] in inputs && inputs[n].Input?;
      PairInputs(messages, inputs[..n]);
      PairAppend(messages + inputs[..n], inputs[n]);
      AcceptInput(Pair(messages).value, inputs[n]);
      assert messages + inputs == (messages + inputs[..n]) + [inputs[n]];
    }
  }

  // ---------------------------------------------------------------- what pairing means

  predicate Proposes(m: ChatMessage, id: CallId) {
    m.Assistant? && id in Ids(m.calls)
  }

  predicate Answers(m: ChatMessage, id: CallId) {
    m.ToolResult? && m.callId == id
  }

  ghost predicate ProposedBefore(messages: seq<ChatMessage>, n: nat, id: CallId)
    requires n <= |messages|
  {
    exists j :: 0 <= j < n && Proposes(messages[j], id)
  }

  /** Proposed before position n, and not answered between that proposal and n. */
  ghost predicate OpenAt(messages: seq<ChatMessage>, n: nat, id: CallId)
    requires n <= |messages|
  {
    exists j :: 0 <= j < n && Proposes(messages[j], id) && forall k :: j < k < n ==> !Answers(messages[k], id)
  }

  ghost predicate NothingOpenAt(messages: seq<ChatMessage>, n: nat)
    requires n <= |messages|
  {
    forall id :: !OpenAt(messages, n, id)
  }

  ghost predicate Admissible(messages: seq<ChatMessage>, n: nat)
    requires n < |messages|
  {
    match messages[n]
    case System(_) => false
    case ToolResult(id, _, _) => OpenAt(messages, n, id)
    case Input(_) => NothingOpenAt(messages, n)
    case Assistant(_, calls) =>
      && NothingOpenAt(messages, n)
      && Distinct(calls)
      && forall id :: id in Ids(calls) ==> !ProposedBefore(messages, n, id)
  }

  /** The positional reading of a valid history: results answer open calls, everything else waits
      until nothing is open, and a call identity is proposed once. */
  ghost predicate WellPaired(messages: seq<ChatMessage>) {
    forall n :: 0 <= n < |messages| ==> Admissible(messages, n)
  }

  lemma OpenStep(messages: seq<ChatMessage>, m: ChatMessage, id: CallId)
    ensures OpenAt(messages + [m], |messages| + 1, id) <==>
            Proposes(m, id) || (OpenAt(messages, |messages|, id) && !Answers(m, id))
    ensures ProposedBefore(messages + [m], |messages| + 1, id) <==>
            Proposes(m, id) || ProposedBefore(messages, |messages|, id)
  {
    var n := |messages|;
    var all := messages + [m];
    assert all[n] == m;
    if OpenAt(all, n + 1, id) && !Proposes(m, id) {
      var j :| 0 <= j < n + 1 && Proposes(all[j], id) && forall k :: j < k < n + 1 ==> !Answers(all[k], id);
      assert !Answers(all[n], id);
      assert Proposes(messages[j], id);
      forall k | j < k < n ensures !Answers(messages[k], id) { assert !Answers(all[k], id); }
    }
    if OpenAt(messages, n, id) && !Answers(m, id) {
      var j :| 0 <= j < n && Proposes(messages[j], id) && forall k :: j < k < n ==> !Answers(messages[k], id);
      assert Proposes(all[j], id);
      forall k | j < k < n + 1 ensures !Answers(all[k], id) {
        if k < n { assert !Answers(messages[k], id); }
      }
    }
    if Proposes(m, id) { assert Proposes(all[n], id); }
    if ProposedBefore(messages, n, id) {
      var j :| 0 <= j < n && Proposes(messages[j], id);
      assert Proposes(all[j], id);
    }
    if ProposedBefore(all, n + 1, id) && !Proposes(m, id) {
      var j :| 0 <= j < n + 1 && Proposes(all[j], id);
      assert Proposes(messages[j], id);
    }
  }

  lemma AdmissiblePrefix(messages: seq<ChatMessage>, m: ChatMessage, n: nat)
    requires n < |messages|
    ensures Admissible(messages + [m], n) <==> Admissible(messages, n)
  {
    var all := messages + [m];
    assert all[n] == messages[n];
    forall id ensures OpenAt(all, n, id) <==> OpenAt(messages, n, id) {
      assert forall j :: 0 <= j < n ==> all[j] == messages[j];
    }
    forall id ensures ProposedBefore(all, n, id) <==> ProposedBefore(messages, n, id) {
      assert forall j :: 0 <= j < n ==> all[j] == messages[j];
    }
  }

  lemma WellPairedStep(messages: seq<ChatMessage>, m: ChatMessage)
    ensures WellPaired(messages + [m]) <==> WellPaired(messages) && Admissible(messages + [m], |messages|)
  {
    forall n | 0 <= n < |messages| ensures Admissible(messages + [m], n) <==> Admissible(messages, n) {
      AdmissiblePrefix(messages, m, n);
    }
  }

  ghost predicate PairingIs(messages: seq<ChatMessage>, p: Pairing) {
    forall id :: (id in p.seen <==> ProposedBefore(messages, |messages|, id)) &&
                 (id in p.pending <==> OpenAt(messages, |messages|, id))
  }

  /** The one-pass validator decides the positional reading, and the sets it keeps are exactly the
      proposed and the open identities. */
  lemma {:induction false} PairDecidesWellPaired(messages: seq<ChatMessage>)
    ensures Pair(messages).Some? <==> WellPaired(messages)
    ensures Pair(messages).Some? ==> PairingIs(messages, Pair(messages).value)
  {
    if messages != [] {
      hide WellPaired, Admissible, Accept, PairingIs;
      var n := |messages| - 1;
      var front, m := messages[..n], messages[n];
      assert messages == front + [m];
      PairDecidesWellPaired(front);
      WellPairedStep(front, m);
      if Pair(front).Some? {
        AcceptDecides(front, m, Pair(front).value);
      }
    }
  }

  /** Accepting one message decides whether it is admissible there, and keeps the sets exact. */
  lemma AcceptDecides(front: seq<ChatMessage>, m: ChatMessage, p: Pairing)
    requires PairingIs(front, p)
    ensures Admissible(front + [m], |front|) <==> Accept(p, m).Some?
    ensures Accept(p, m).Some? ==> PairingIs(front + [m], Accept(p, m).value)
  {
    hide OpenAt, ProposedBefore;
    var messages, n := front + [m], |front|;
    forall id
      ensures OpenAt(messages, n, id) <==> id in p.pending
      ensures ProposedBefore(messages, n, id) <==> id in p.seen
    {
      SameBefore(front, m, id);
      assert PairingIs(front, p);
    }
    assert NothingOpenAt(messages, n) <==> p.pending == {};
    if m.Assistant? {
      assert (forall id :: id in Ids(m.calls) ==> !ProposedBefore(messages, n, id)) <==> Ids(m.calls) !! p.seen;
    }
    if Accept(p, m).Some? {
      forall id
        ensures id in Accept(p, m).value.seen <==> ProposedBefore(messages, |messages|, id)
        ensures id in Accept(p, m).value.pending <==> OpenAt(messages, |messages|, id)
      {
        OpenStep(front, m, id);
        assert PairingIs(front, p);
      }
    }
  }

  lemma SameBefore(front: seq<ChatMessage>, m: ChatMessage, id: CallId)
    ensures OpenAt(front, |front|, id) <==> OpenAt(front + [m], |front|, id)
    ensures ProposedBefore(front, |front|, id) <==> ProposedBefore(front + [m], |front|, id)
  {
    assert forall j :: 0 <= j < |front| ==> (front + [m])[j] == front[j];
  }

  // ---------------------------------------------------------------- the validator itself

  datatype HistoryError =
    | RoleNotAllowed | ResultWithoutCall | CallsUnanswered | CallIdRepeated

  /** The calls of one message, one after the other: each needs an identity not seen before. */
  method OpenCalls(calls: seq<ToolCall>, before: set<CallId>) returns (taken: Option<set<CallId>>)
    ensures taken.Some? <==> Distinct(calls) && Ids(calls) !! before
    ensures taken.Some? ==> taken.value == Ids(calls)
  {
    var pending: set<CallId> := {};
    for k := 0 to |calls|
      invariant pending == Ids(calls[..k]) && Distinct(calls[..k]) && pending !! before
    {
      var call := calls[k];
      assert calls[..k + 1] == calls[..k] + [call];
      assert Ids(calls[..k + 1]) == Ids(calls[..k]) + {call.callId};
      if call.callId in before + pending {
        assert call in calls && call.callId in Ids(calls);
        if call.callId in Ids(calls[..k]) {
          var j :| 0 <= j < k && calls[j].callId == call.callId;
        }
        return None;
      }
      DistinctAppend(calls[..k], call);
      pending := pending + {call.callId};
    }
    assert calls[..|calls|] == calls;
    return Some(pending);
  }

  lemma NothingOpenMeans(messages: seq<ChatMessage>)
    ensures Pair(messages).Some? ==> (NothingOpenAt(messages, |messages|) <==> Pair(messages).value.pending == {})
  {
    hide Pair, WellPaired, OpenAt, ProposedBefore;
    PairDecidesWellPaired(messages);
    if Pair(messages).Some? {
      assert PairingIs(messages, Pair(messages).value);
    }
  }

  lemma NothingPaired()
    ensures Pair([]) == Some(Pairing({}, {}))
  {}

  /** Walks the history once; Err stands for the ValueError raised at the first offending message. */
  method ValidateHistory(messages: seq<ChatMessage>, allowPending: bool) returns (r: Result<(), HistoryError>)
    ensures r.Ok? <==> WellPaired(messages) && (allowPending || NothingOpenAt(messages, |messages|))
    ensures r.Ok? <==> Pair(messages).Some? && (allowPending || Pair(messages).value.pending == {})
  {
    hide Pair, WellPaired, NothingOpenAt, Distinct, Ids;
    PairDecidesWellPaired(messages);
    NothingOpenMeans(messages);
    NothingPaired();
    var seen: set<CallId>, pending: set<CallId> := {}, {};
    for i := 0 to |messages|
      invariant Pair(messages[..i]) == Some(Pairing(seen, pending))
    {
      var message := messages[i];
      assert messages[..i + 1] == messages[..i] + [message];
      PairAppend(messages[..i], message);
      if message.System? {
        RejectedForGood(messages, i + 1);
        return Err(RoleNotAllowed);
      }
      if message.ToolResult? {
        if message.callId !in pending {
          RejectedForGood(messages, i + 1);
          return Err(ResultWithoutCall);
        }
        pending := pending - {message.callId};
        continue;
      }
      if pending != {} {
        RejectedForGood(messages, i + 1);
        return Err(CallsUnanswered);
      }
      if message.Assistant? {
        var taken := OpenCalls(message.calls, seen);
        if taken.None? {
          RejectedForGood(messages, i + 1);
          return Err(CallIdRepeated);
        }
        seen, pending := seen + taken.value, taken.value;
      }
    }
    assert messages[..|messages|] == messages;
    if pending != {} && !allowPending {
      return Err(CallsUnanswered);
    }
    return Ok(());
  }
}
