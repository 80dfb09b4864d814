/** The single-driver ReAct run (src/aurora_agent/run.py, state.py).

    Every `await` of the source is a point where the host may append messages or request
    cancellation any number of times before the awaited call returns or raises. The environment is
    a set of functions from a tick to what happens at that await; proving the class for every such
    function proves it for every interleaving. */
module AgentRun {
  import opened Common
  import opened Messages

  datatype RunStatus = Ready | Running | Completed | Failed | Cancelled | LimitReached {
    predicate Terminal() { !Ready? && !Running? }
  }

  /** InFlight is the source's RUNNING. */
  datatype CallStatus = Pending | InFlight | Succeeded | CallFailed | Unknown

  datatype ToolOutput = ToolOutput(content: string, isError: bool)

  datatype CallRecord = CallRecord(call: ToolCall, status: CallStatus, output: Option<ToolOutput>)

  datatype Usage = Usage(inputTokens: nat, outputTokens: nat)

  /** The total after one more report; a response without usage leaves the total as it is. */
  function AddedUsage(total: Option<Usage>, more: Option<Usage>): Option<Usage> {
    if more.None? then total
    else if total.None? then more
    else Some(Usage(total.value.inputTokens + more.value.inputTokens, total.value.outputTokens + more.value.outputTokens))
  }

  datatype RunStats = RunStats(modelCalls: nat, toolCalls: nat, usage: Option<Usage>)

  datatype RunResult = RunResult(status: RunStatus, output: Option<string>, reason: string, stats: RunStats)

  datatype EventKind =
    | Created | MessageQueued | MessagesApplied | ModelStarted | ModelCompleted | ToolProposed
    | ToolStarted | ToolCompleted | ToolUnknown | CancelRequested | Finished

  datatype RunEvent = RunEvent(sequence: nat, kind: EventKind, status: RunStatus, callId: Option<CallId>)

  // ---------------------------------------------------------------- the environment

  /** Exceptions that matter to the driver; Unexpected is any other Exception. */
  datatype Error =
    | ContextBudget | ModelFailure | ToolExecution | ToolEffectUnknown
    | RuntimeMisuse | ValueInvalid | TypeInvalid | Unexpected | TaskCancelled

  datatype Signal = Normal | Raised(error: Error)

  datatype HostAction = Append(content: string) | Cancel

  /** What the host does during one await, and how the awaited call ends. */
  datatype Await<+T> = Await(host: seq<HostAction>, outcome: Result<T, Error>)

  datatype ModelAnswer = Response(content: string, calls: seq<ToolCall>, usage: Option<Usage>) | NotAResponse
  datatype PolicyAnswer = Allow | Deny(content: string) | Reconsider(content: string) | NotADecision
  datatype ToolAnswer = Output(output: ToolOutput) | NotAnOutput

  datatype Environment = Environment(
    assemble: nat -> Await<seq<ChatMessage>>,
    complete: nat -> Await<ModelAnswer>,
    beforeTool: nat -> Await<PolicyAnswer>,
    execute: nat -> Await<ToolAnswer>,
    overBudget: seq<ChatMessage> -> bool,
    validArguments: ToolCall -> bool,
    isBlank: string -> bool)

  datatype Limits = Limits(maxModelCalls: nat, maxToolCalls: nat)

  /** The messages a host's actions add to the queue: blank content is refused. */
  function Admitted(env: Environment, host: seq<HostAction>): seq<ChatMessage> {
    if host == [] then []
    else
      var a := host[|host| - 1];
      Admitted(env, host[..|host| - 1]) +
      if a.Append? && !env.isBlank(a.content) then [Input(a.content)] else []
  }

  lemma AdmittedNone(env: Environment)
    ensures Admitted(env, []) == []
  {}

  lemma AdmittedNext(env: Environment, host: seq<HostAction>, action: HostAction)
    ensures Admitted(env, host + [action]) == Admitted(env, host) + Admitted(env, [action])
  {
    assert (host + [action])[..|host|] == host;
    assert [action][..0] == [];
  }

  /** The request the source accepts: a system message first, then a fully paired history. */
  ghost predicate Sendable(env: Environment, request: seq<ChatMessage>) {
    && request != [] && request[0].System?
    && WellPaired(request[1..]) && NothingOpenAt(request[1..], |request| - 1)
    && !env.overBudget(request)
  }

  // ---------------------------------------------------------------- projections of a history

  function Inputs(messages: seq<ChatMessage>): seq<ChatMessage> {
    if messages == [] then []
    else
      var m := messages[|messages| - 1];
      Inputs(messages[..|messages| - 1]) + if m.Input? then [m] else []
  }

  function Proposals(messages: seq<ChatMessage>): seq<ToolCall> {
    if messages == [] then []
    else
      var m := messages[|messages| - 1];
      Proposals(messages[..|messages| - 1]) + if m.Assistant? then m.calls else []
  }

  function Results(messages: seq<ChatMessage>): seq<ChatMessage> {
    if messages == [] then []
    else
      var m := messages[|messages| - 1];
      Results(messages[..|messages| - 1]) + if m.ToolResult? then [m] else []
  }

  lemma ProjectAppend(messages: seq<ChatMessage>, m: ChatMessage)
    ensures Inputs(messages + [m]) == Inputs(messages) + if m.Input? then [m] else []
    ensures Proposals(messages + [m]) == Proposals(messages) + if m.Assistant? then m.calls else []
    ensures Results(messages + [m]) == Results(messages) + if m.ToolResult? then [m] else []
  {
    assert (messages + [m])[..|messages|] == messages;
  }

  lemma {:induction false} ProjectInputs(messages: seq<ChatMessage>, inputs: seq<ChatMessage>)
    requires forall m :: m in inputs ==> m.Input?
    ensures Inputs(messages + inputs) == Inputs(messages) + inputs
    ensures Proposals(messages + inputs) == Proposals(messages)
    ensures Results(messages + inputs) == Results(messages)
  {
    hide Inputs, Proposals, Results;
    if inputs == [] {
      assert messages + inputs == messages && Inputs(messages) + inputs == Inputs(messages);
    } else {
      var n := |inputs| - 1;
      assert inputs == inputs[..n] + [inputs[n]] && inputs[n] in inputs;
      ProjectInputs(messages, inputs[..n]);
      ProjectAppend(messages + inputs[..n], inputs[n]);
      assert messages + inputs == (messages + inputs[..n]) + [inputs[n]];
      assert Inputs(messages) + inputs == (Inputs(messages) + inputs[..n]) + [inputs[n]];
      assert Results(messages) + [] == Results(messages) && Proposals(messages) + [] == Proposals(messages);
    }
  }

  // ---------------------------------------------------------------- the table of calls

  function CallsOf(calls: seq<CallRecord>): (r: seq<ToolCall>)
    ensures |r| == |calls|
  {
    seq(|calls|, i requires 0 <= i < |calls| => calls[i].call)
  }

  predicate Answered(r: CallRecord) {
    && r.output.Some?
    && r.status == (if r.output.value.isError then CallFailed else Succeeded)
  }

  predicate Unanswered(r: CallRecord) {
    r.output.None? && (r.status.Pending? || r.status.InFlight? || r.status.Unknown?)
  }

  function ResultOf(r: CallRecord): ChatMessage
    requires r.output.Some?
  {
    ToolResult(r.call.callId, r.output.value.content, r.output.value.isError)
  }

  function ResultsOf(calls: seq<CallRecord>): seq<ChatMessage>
    requires forall r :: r in calls ==> r.output.Some?
  {
    seq(|calls|, i requires 0 <= i < |calls| => ResultOf(calls[i]))
  }

  predicate DistinctRecords(calls: seq<CallRecord>) {
    forall i, j :: 0 <= i < j < |calls| ==> calls[i].call.callId != calls[j].call.callId
  }

  function RecordIds(calls: seq<CallRecord>): set<CallId> {
    set r | r in calls :: r.call.callId
  }

  /** `_calls[id] = record`: a dictionary keeps the position of a key it already has. */
  function Put(calls: seq<CallRecord>, r: CallRecord): seq<CallRecord> {
    if calls == [] then [r]
    else if calls[0].call.callId == r.call.callId then [r] + calls[1..]
    else [calls[0]] + Put(calls[1..], r)
  }

  lemma {:induction false} PutAt(calls: seq<CallRecord>, i: nat, r: CallRecord)
    requires i < |calls| && calls[i].call.callId == r.call.callId && DistinctRecords(calls)
    ensures Put(calls, r) == calls[i := r]
  {
    if i > 0 {
      assert calls[0].call.callId != r.call.callId;
      assert DistinctRecords(calls[1..]);
      PutAt(calls[1..], i - 1, r);
      assert calls[i := r] == [calls[0]] + calls[1..][i - 1 := r];
    } else {
      assert calls[i := r] == [r] + calls[1..];
    }
  }

  lemma {:induction false} PutNew(calls: seq<CallRecord>, r: CallRecord)
    requires r.call.callId !in RecordIds(calls)
    ensures Put(calls, r) == calls + [r]
  {
    if calls != [] {
      assert calls[0] in calls;
      forall x | x in calls[1..] ensures x in calls {}
      PutNew(calls[1..], r);
      assert calls + [r] == [calls[0]] + (calls[1..] + [r]);
    } else {
      assert calls + [r] == [r];
    }
  }

  // ---------------------------------------------------------------- history against calls

  /** The history and the call table tell the same story: the first `settled` calls are answered,
      in the order they were proposed and with the recorded flag, one result each; the rest are the
      open calls of the history, and only the first of them can have been started. */
  ghost predicate Paired(initial: seq<ChatMessage>, messages: seq<ChatMessage>, calls: seq<CallRecord>, settled: nat) {
    && settled <= |calls|
    && Pair(messages).Some?
    && (forall i :: 0 <= i < settled ==> Answered(calls[i]))
    && (forall i :: settled <= i < |calls| ==> Unanswered(calls[i]))
    && (forall i :: settled < i < |calls| ==> calls[i].status.Pending?)
    && DistinctRecords(calls)
    && Pair(messages).value.pending == RecordIds(calls[settled..])
    && RecordIds(calls) <= Pair(messages).value.seen
    && Proposals(messages) == Proposals(initial) + CallsOf(calls)
    && Results(messages) == Results(initial) + ResultsOf(calls[..settled])
  }

  /** Without its first element, a table of distinct records loses exactly that identity. */
  lemma TailIds(calls: seq<CallRecord>, k: nat)
    requires k < |calls| && DistinctRecords(calls)
    ensures RecordIds(calls[k..]) - {calls[k].call.callId} == RecordIds(calls[k + 1..])
    ensures calls[k].call.callId in RecordIds(calls[k..])
  {
    assert calls[k..][0] == calls[k];
    forall id ensures id in RecordIds(calls[k..]) - {calls[k].call.callId} <==> id in RecordIds(calls[k + 1..]) {
      if id in RecordIds(calls[k..]) - {calls[k].call.callId} {
        var i :| 0 <= i < |calls[k..]| && calls[k..][i].call.callId == id;
        assert calls[k + 1..][i - 1] == calls[k..][i];
      }
      if id in RecordIds(calls[k + 1..]) {
        var i :| 0 <= i < |calls[k + 1..]| && calls[k + 1..][i].call.callId == id;
        assert calls[k..][i + 1] == calls[k + 1..][i] && calls[k + 1 + i].call.callId != calls[k].call.callId;
      }
    }
  }

  /** Replacing a record under its identity changes neither the calls nor the identities. */
  lemma ReplacedIds(calls: seq<CallRecord>, k: nat, r: CallRecord)
    requires k < |calls| && r.call == calls[k].call
    ensures CallsOf(calls[k := r]) == CallsOf(calls) && RecordIds(calls[k := r]) == RecordIds(calls)
    ensures DistinctRecords(calls) ==> DistinctRecords(calls[k := r])
  {
    SameRecordIds(calls[k := r], calls);
  }

  lemma ResultsNext(calls: seq<CallRecord>, k: nat, r: CallRecord)
    requires k < |calls| && r.output.Some? && forall i :: 0 <= i < k ==> calls[i].output.Some?
    ensures forall x :: x in calls[..k] || x in calls[k := r][..k + 1] ==> x.output.Some?
    ensures ResultsOf(calls[k := r][..k + 1]) == ResultsOf(calls[..k]) + [ResultOf(r)]
  {
    assert calls[k := r][..k + 1] == calls[..k] + [r];
  }

  lemma AcceptAnswer(p: Pairing, r: CallRecord)
    requires r.output.Some? && r.call.callId in p.pending
    ensures Accept(p, ResultOf(r)) == Some(Pairing(p.seen, p.pending - {r.call.callId}))
  {}

  lemma PairedAnswer(initial: seq<ChatMessage>, messages: seq<ChatMessage>, calls: seq<CallRecord>, settled: nat,
                     r: CallRecord)
    requires Paired(initial, messages, calls, settled)
    requires settled < |calls| && r.call == calls[settled].call && Answered(r)
    ensures Paired(initial, messages + [ResultOf(r)], calls[settled := r], settled + 1)
  {
    var m, after := ResultOf(r), calls[settled := r];
    hide Pair, Accept, Proposals, Results, RecordIds, CallsOf, ResultsOf, ResultOf, DistinctRecords;
    PairAppend(messages, m);
    ProjectAppend(messages, m);
    TailIds(calls, settled);
    ReplacedIds(calls, settled, r);
    ResultsNext(calls, settled, r);
    AcceptAnswer(Pair(messages).value, r);
    IsAnswer(r);
    assert after[settled + 1..] == calls[settled + 1..];
    assert Results(initial) + (ResultsOf(calls[..settled]) + [m]) == Results(initial) + ResultsOf(calls[..settled]) + [m];
  }

  lemma IsAnswer(r: CallRecord)
    requires r.output.Some?
    ensures ResultOf(r).ToolResult?
  {}

  /** Marking the first open call as started or as unknown leaves the pairing alone. */
  lemma PairedMark(initial: seq<ChatMessage>, messages: seq<ChatMessage>, calls: seq<CallRecord>, settled: nat,
                   status: CallStatus)
    requires Paired(initial, messages, calls, settled)
    requires settled < |calls| && (status.InFlight? || status.Unknown?)
    ensures Paired(initial, messages, calls[settled := CallRecord(calls[settled].call, status, None)], settled)
  {
    var after := calls[settled := CallRecord(calls[settled].call, status, None)];
    assert CallsOf(after) == CallsOf(calls);
    assert after[..settled] == calls[..settled];
    assert SameIds(after, calls) by { assert forall i :: 0 <= i < |calls| ==> after[i].call == calls[i].call; }
    SameRecordIds(after, calls);
    SameRecordIds(after[settled..], calls[settled..]);
  }

  predicate SameIds(a: seq<CallRecord>, b: seq<CallRecord>) {
    |a| == |b| && forall i :: 0 <= i < |a| ==> a[i].call == b[i].call
  }

  lemma SameRecordIds(a: seq<CallRecord>, b: seq<CallRecord>)
    requires SameIds(a, b)
    ensures RecordIds(a) == RecordIds(b)
  {
    forall id ensures id in RecordIds(a) <==> id in RecordIds(b) {
      if id in RecordIds(a) {
        var i :| 0 <= i < |a| && a[i].call.callId == id;
        assert b[i] in b;
      }
      if id in RecordIds(b) {
        var i :| 0 <= i < |b| && b[i].call.callId == id;
        assert a[i] in a;
      }
    }
  }

  lemma PairedDeliver(initial: seq<ChatMessage>, messages: seq<ChatMessage>, calls: seq<CallRecord>,
                      inputs: seq<ChatMessage>)
    requires Paired(initial, messages, calls, |calls|)
    requires forall m :: m in inputs ==> m.Input?
    ensures Paired(initial, messages + inputs, calls, |calls|)
  {
    assert calls[|calls|..] == [];
    PairInputs(messages, inputs);
    ProjectInputs(messages, inputs);
  }

  function Fresh(calls: seq<ToolCall>): seq<CallRecord> {
    seq(|calls|, i requires 0 <= i < |calls| => CallRecord(calls[i], Pending, None))
  }

  lemma FreshIds(calls: seq<ToolCall>)
    ensures RecordIds(Fresh(calls)) == Ids(calls)
  {
    forall id ensures id in RecordIds(Fresh(calls)) <==> id in Ids(calls) {
      if id in RecordIds(Fresh(calls)) {
        var i :| 0 <= i < |calls| && Fresh(calls)[i].call.callId == id;
        assert calls[i] in calls;
      }
      if id in Ids(calls) {
        var i :| 0 <= i < |calls| && calls[i].callId == id;
        assert Fresh(calls)[i] in Fresh(calls);
      }
    }
  }

  /** What accepting a proposal says about it. */
  lemma AcceptedProposal(p: Pairing, content: string, proposed: seq<ToolCall>)
    requires Accept(p, Assistant(content, proposed)).Some?
    ensures p.pending == {} && Distinct(proposed) && Ids(proposed) !! p.seen
    ensures Accept(p, Assistant(content, proposed)) == Some(Pairing(p.seen + Ids(proposed), Ids(proposed)))
  {}

  lemma DistinctProposed(calls: seq<CallRecord>, proposed: seq<ToolCall>)
    requires DistinctRecords(calls) && Distinct(proposed) && RecordIds(calls) !! Ids(proposed)
    ensures DistinctRecords(calls + Fresh(proposed)) && RecordIds(calls + Fresh(proposed)) == RecordIds(calls) + Ids(proposed)
  {
    var after := calls + Fresh(proposed);
    FreshIds(proposed);
    forall i, j | 0 <= i < j < |after| ensures after[i].call.callId != after[j].call.callId {
      if i < |calls| <= j {
        assert calls[i] in calls && proposed[j - |calls|] in proposed;
        assert calls[i].call.callId in RecordIds(calls) && proposed[j - |calls|].callId in Ids(proposed);
      }
    }
    RecordIdsAppend(calls, Fresh(proposed));
  }

  lemma RecordIdsAppend(a: seq<CallRecord>, b: seq<CallRecord>)
    ensures RecordIds(a + b) == RecordIds(a) + RecordIds(b)
  {}

  lemma CallsProposed(calls: seq<CallRecord>, proposed: seq<ToolCall>)
    ensures CallsOf(calls + Fresh(proposed)) == CallsOf(calls) + proposed
  {}

  lemma PairedPropose(initial: seq<ChatMessage>, messages: seq<ChatMessage>, calls: seq<CallRecord>,
                      content: string, proposed: seq<ToolCall>)
    requires Paired(initial, messages, calls, |calls|)
    requires Pair(messages + [Assistant(content, proposed)]).Some?
    ensures Paired(initial, messages + [Assistant(content, proposed)], calls + Fresh(proposed), |calls|)
    ensures RecordIds(calls) !! Ids(proposed) && Distinct(proposed)
  {
    hide Pair, Accept, Proposals, Results, CallsOf, RecordIds, Distinct, DistinctRecords, Ids;
    var m, after := Assistant(content, proposed), calls + Fresh(proposed);
    PairAppend(messages, m);
    AcceptedProposal(Pair(messages).value, content, proposed);
    ProjectAppend(messages, m);
    FreshIds(proposed);
    DistinctProposed(calls, proposed);
    CallsProposed(calls, proposed);
    assert after[|calls|..] == Fresh(proposed);
    assert after[..|calls|] == calls == calls[..|calls|];
    assert Results(messages) + [] == Results(messages);
    assert Proposals(initial) + (CallsOf(calls) + proposed) == (Proposals(initial) + CallsOf(calls)) + proposed;
  }

  // ---------------------------------------------------------------- the event log

  function CountOf(events: seq<RunEvent>, kind: EventKind): nat {
    if events == [] then 0
    else CountOf(events[..|events| - 1], kind) + if events[|events| - 1].kind == kind then 1 else 0
  }

  /** The kinds of the events about one call, in order. */
  function Trace(events: seq<RunEvent>, id: CallId): seq<EventKind> {
    if events == [] then []
    else
      var e := events[|events| - 1];
      Trace(events[..|events| - 1], id) + if e.callId == Some(id) then [e.kind] else []
  }

  lemma LogAppend(events: seq<RunEvent>, e: RunEvent)
    ensures forall id :: Trace(events + [e], id) == Trace(events, id) + if e.callId == Some(id) then [e.kind] else []
    ensures forall k :: CountOf(events + [e], k) == CountOf(events, k) + if e.kind == k then 1 else 0
  {
    assert (events + [e])[..|events|] == events;
  }

  /** The lives a call can have had, by its status. */
  predicate Lived(trace: seq<EventKind>, status: CallStatus) {
    match status
    case Pending => trace == [ToolProposed]
    case InFlight => trace == [ToolProposed, ToolStarted]
    case Unknown => trace == [ToolProposed, ToolStarted, ToolUnknown]
    case _ => trace == [ToolProposed, ToolCompleted] || trace == [ToolProposed, ToolStarted, ToolCompleted]
  }

  ghost predicate Traced(events: seq<RunEvent>, calls: seq<CallRecord>) {
    && (forall i :: 0 <= i < |calls| ==> Lived(Trace(events, calls[i].call.callId), calls[i].status))
    && (forall id :: id !in RecordIds(calls) ==> Trace(events, id) == [])
  }

  predicate IsStart(kind: EventKind) {
    kind.ModelStarted? || kind.ToolStarted?
  }

  ghost predicate Logged(events: seq<RunEvent>, status: RunStatus, cancelRequested: bool) {
    && 0 < |events| && events[0].kind.Created?
    && (forall i :: 0 <= i < |events| ==> events[i].sequence == i + 1)
    && (forall i :: 0 <= i < |events| && events[i].kind.Finished? ==> i == |events| - 1)
    && (status.Terminal() <==> events[|events| - 1].kind.Finished?)
    && (status.Terminal() ==> events[|events| - 1].status == status)
    && (forall i :: 0 <= i < |events| && events[i].kind.CancelRequested? ==> cancelRequested)
    && (forall i, j :: 0 <= i < j < |events| && events[i].kind.CancelRequested? ==>
          !IsStart(events[j].kind) && !events[j].kind.CancelRequested?)
  }

  /** Two events of one kind about one call show up twice in its trace. */
  lemma {:induction false} TraceRepeats(events: seq<RunEvent>, i: nat, j: nat, id: CallId, kind: EventKind)
    requires i < j < |events|
    requires events[i].callId == events[j].callId == Some(id) && events[i].kind == events[j].kind == kind
    ensures exists a, b :: 0 <= a < b < |Trace(events, id)| && Trace(events, id)[a] == kind && Trace(events, id)[b] == kind
  {
    var n := |events| - 1;
    var front, t := events[..n], Trace(events, id);
    if j < n {
      TraceRepeats(front, i, j, id, kind);
      var a, b :| 0 <= a < b < |Trace(front, id)| && Trace(front, id)[a] == kind && Trace(front, id)[b] == kind;
      assert t[a] == kind && t[b] == kind;
    } else {
      var a := TraceHas(front, i, id, kind);
      assert t[a] == kind && t[|t| - 1] == kind;
    }
  }

  lemma {:induction false} TraceHas(events: seq<RunEvent>, i: nat, id: CallId, kind: EventKind) returns (a: nat)
    requires i < |events| && events[i].callId == Some(id) && events[i].kind == kind
    ensures a < |Trace(events, id)| && Trace(events, id)[a] == kind
  {
    var n := |events| - 1;
    if i < n {
      a := TraceHas(events[..n], i, id, kind);
    } else {
      a := |Trace(events, id)| - 1;
    }
  }

  /** The log, the call table and the counters agree. */
  ghost predicate LogOk(events: seq<RunEvent>, calls: seq<CallRecord>, status: RunStatus, cancelRequested: bool,
                        stats: RunStats) {
    && Logged(events, status, cancelRequested)
    && Traced(events, calls)
    && stats.modelCalls == CountOf(events, ModelStarted)
    && stats.toolCalls == CountOf(events, ToolStarted)
  }

  function Entry(events: seq<RunEvent>, kind: EventKind, status: RunStatus, callId: Option<CallId>): RunEvent {
    RunEvent(|events| + 1, kind, status, callId)
  }

  /** No call is ever started twice. */
  lemma StartedOnce(events: seq<RunEvent>, calls: seq<CallRecord>, i: nat, j: nat)
    requires Traced(events, calls) && i < |events| && j < |events|
    requires events[i].kind.ToolStarted? && events[j].kind.ToolStarted?
    requires events[i].callId.Some? && events[i].callId == events[j].callId
    ensures i == j
  {
    hide Trace;
    if i != j {
      var id := events[i].callId.value;
      TraceRepeats(events, if i < j then i else j, if i < j then j else i, id, ToolStarted);
      var k :| 0 <= k < |calls| && calls[k].call.callId == id;
      LivedStartsOnce(Trace(events, id), calls[k].status);
    }
  }

  lemma LivedStartsOnce(trace: seq<EventKind>, status: CallStatus)
    requires Lived(trace, status)
    ensures forall a, b :: 0 <= a < b < |trace| ==> !(trace[a].ToolStarted? && trace[b].ToolStarted?)
  {}

  /** One more event while the run goes on. */
  lemma LoggedMore(events: seq<RunEvent>, status: RunStatus, cancelRequested: bool, kind: EventKind, callId: Option<CallId>)
    requires Logged(events, status, cancelRequested) && !status.Terminal()
    requires !kind.Finished? && !kind.CancelRequested? && (IsStart(kind) ==> !cancelRequested)
    ensures Logged(events + [Entry(events, kind, status, callId)], status, cancelRequested)
  {}

  lemma TracedQuiet(events: seq<RunEvent>, calls: seq<CallRecord>, e: RunEvent)
    requires Traced(events, calls) && e.callId.None?
    ensures Traced(events + [e], calls)
  {
    hide Trace, Lived;
    LogAppend(events, e);
    assert forall id :: Trace(events, id) + [] == Trace(events, id);
  }

  /** Events about no call: queueing, delivery, and the two ends of a model call. */
  lemma LogQuiet(events: seq<RunEvent>, calls: seq<CallRecord>, status: RunStatus, cancelRequested: bool,
                 stats: RunStats, kind: EventKind)
    requires LogOk(events, calls, status, cancelRequested, stats) && !status.Terminal()
    requires kind.MessageQueued? || kind.MessagesApplied? || kind.ModelCompleted? || (kind.ModelStarted? && !cancelRequested)
    ensures LogOk(events + [Entry(events, kind, status, None)], calls, status, cancelRequested,
                  if kind.ModelStarted? then stats.(modelCalls := stats.modelCalls + 1) else stats)
  {
    hide Logged, Traced, Trace, CountOf;
    LogAppend(events, Entry(events, kind, status, None));
    LoggedMore(events, status, cancelRequested, kind, None);
    TracedQuiet(events, calls, Entry(events, kind, status, None));
  }

  lemma LogCancel(events: seq<RunEvent>, calls: seq<CallRecord>, status: RunStatus, stats: RunStats)
    requires LogOk(events, calls, status, false, stats) && !status.Terminal()
    ensures LogOk(events + [Entry(events, CancelRequested, status, None)], calls, status, true, stats)
  {
    hide Traced, Trace, CountOf;
    LogAppend(events, Entry(events, CancelRequested, status, None));
    TracedQuiet(events, calls, Entry(events, CancelRequested, status, None));
  }

  lemma LogFinish(events: seq<RunEvent>, calls: seq<CallRecord>, before: RunStatus, cancelRequested: bool,
                  stats: RunStats, status: RunStatus)
    requires LogOk(events, calls, before, cancelRequested, stats) && !before.Terminal() && status.Terminal()
    ensures LogOk(events + [Entry(events, Finished, status, None)], calls, status, cancelRequested, stats)
  {
    hide Traced, Trace, CountOf;
    LogAppend(events, Entry(events, Finished, status, None));
    TracedQuiet(events, calls, Entry(events, Finished, status, None));
  }

  lemma LogResume(events: seq<RunEvent>, calls: seq<CallRecord>, before: RunStatus, cancelRequested: bool,
                  stats: RunStats, cancelled: bool)
    requires LogOk(events, calls, before, cancelRequested, stats) && !before.Terminal()
    ensures LogOk(events, calls, Running, cancelRequested || cancelled, stats)
  {}

  /** One call moves on: it is started, answered, or left unknown. */
  lemma LogCall(events: seq<RunEvent>, calls: seq<CallRecord>, status: RunStatus, cancelRequested: bool, stats: RunStats,
                i: nat, after: CallRecord, kind: EventKind)
    requires LogOk(events, calls, status, cancelRequested, stats) && !status.Terminal()
    requires DistinctRecords(calls) && i < |calls| && after.call == calls[i].call
    requires
      || (kind.ToolStarted? && calls[i].status.Pending? && after.status.InFlight? && !cancelRequested)
      || (kind.ToolUnknown? && calls[i].status.InFlight? && after.status.Unknown?)
      || (kind.ToolCompleted? && (calls[i].status.Pending? || calls[i].status.InFlight?) && Answered(after))
    ensures LogOk(events + [Entry(events, kind, status, Some(after.call.callId))], calls[i := after], status, cancelRequested,
                  if kind.ToolStarted? then stats.(toolCalls := stats.toolCalls + 1) else stats)
  {
    hide Logged, Traced, Trace, CountOf;
    LogAppend(events, Entry(events, kind, status, Some(after.call.callId)));
    LoggedMore(events, status, cancelRequested, kind, Some(after.call.callId));
    TracedCall(events, calls, i, after, Entry(events, kind, status, Some(after.call.callId)));
  }

  lemma TracedCall(events: seq<RunEvent>, calls: seq<CallRecord>, i: nat, after: CallRecord, e: RunEvent)
    requires Traced(events, calls) && DistinctRecords(calls) && i < |calls| && after.call == calls[i].call
    requires e.callId == Some(after.call.callId)
    requires var trace := Trace(events, after.call.callId); Lived(trace, calls[i].status) ==> Lived(trace + [e.kind], after.status)
    ensures Traced(events + [e], calls[i := after])
  {
    hide Trace, Lived, RecordIds;
    LogAppend(events, e);
    assert SameIds(calls[i := after], calls);
    SameRecordIds(calls[i := after], calls);
    RecordIn(calls, i);
    var updated := calls[i := after];
    forall j | 0 <= j < |updated| ensures Lived(Trace(events + [e], updated[j].call.callId), updated[j].status) {
      if j != i {
        assert calls[j].call.callId != calls[i].call.callId;
        assert Trace(events, calls[j].call.callId) + [] == Trace(events, calls[j].call.callId);
      } else {
        assert Lived(Trace(events, calls[i].call.callId), calls[i].status);
      }
    }
    forall id | id !in RecordIds(calls) ensures Trace(events + [e], id) == [] {
      assert id != after.call.callId;
    }
  }

  lemma RecordIn(calls: seq<CallRecord>, i: nat)
    requires i < |calls|
    ensures calls[i].call.callId in RecordIds(calls)
  {
    assert calls[i] in calls;
  }

  lemma LogPropose(events: seq<RunEvent>, calls: seq<CallRecord>, status: RunStatus, cancelRequested: bool,
                   stats: RunStats, call: ToolCall)
    requires LogOk(events, calls, status, cancelRequested, stats) && !status.Terminal()
    requires call.callId !in RecordIds(calls)
    ensures LogOk(events + [Entry(events, ToolProposed, status, Some(call.callId))],
                  calls + [CallRecord(call, Pending, None)], status, cancelRequested, stats)
  {
    hide Logged, Traced, Trace, CountOf;
    LogAppend(events, Entry(events, ToolProposed, status, Some(call.callId)));
    LoggedMore(events, status, cancelRequested, ToolProposed, Some(call.callId));
    TracedNew(events, calls, call, Entry(events, ToolProposed, status, Some(call.callId)));
  }

  lemma TracedNew(events: seq<RunEvent>, calls: seq<CallRecord>, call: ToolCall, e: RunEvent)
    requires Traced(events, calls) && call.callId !in RecordIds(calls)
    requires e.kind.ToolProposed? && e.callId == Some(call.callId)
    ensures Traced(events + [e], calls + [CallRecord(call, Pending, None)])
  {
    hide Trace, RecordIds;
    LogAppend(events, e);
    var after := calls + [CallRecord(call, Pending, None)];
    RecordIdsAppend(calls, [CallRecord(call, Pending, None)]);
    OneRecordId(CallRecord(call, Pending, None));
    forall j | 0 <= j < |after| ensures Lived(Trace(events + [e], after[j].call.callId), after[j].status) {
      if j < |calls| {
        RecordIn(calls, j);
        assert Trace(events, calls[j].call.callId) + [] == Trace(events, calls[j].call.callId);
      } else {
        assert Trace(events, call.callId) == [] && [] + [ToolProposed] == [ToolProposed];
      }
    }
    forall id | id !in RecordIds(after) ensures Trace(events + [e], id) == [] {
      assert id != call.callId;
    }
  }

  lemma OneRecordId(r: CallRecord)
    ensures RecordIds([r]) == {r.call.callId}
  {
    assert r in [r];
  }

  // ---------------------------------------------------------------- delivery

  /** Everything the host queued is either delivered, in order, or still queued. */
  ghost predicate Delivered(initial: seq<ChatMessage>, messages: seq<ChatMessage>, queued: seq<ChatMessage>,
                            appended: seq<ChatMessage>) {
    && (forall m :: m in queued ==> m.Input?)
    && Inputs(messages) + queued == Inputs(initial) + appended
  }

  lemma DeliverOther(initial: seq<ChatMessage>, messages: seq<ChatMessage>, queued: seq<ChatMessage>,
                     appended: seq<ChatMessage>, m: ChatMessage)
    requires Delivered(initial, messages, queued, appended) && !m.Input?
    ensures Delivered(initial, messages + [m], queued, appended)
  {
    ProjectAppend(messages, m);
  }

  lemma DeliverQueue(initial: seq<ChatMessage>, messages: seq<ChatMessage>, queued: seq<ChatMessage>,
                     appended: seq<ChatMessage>, n: nat)
    requires Delivered(initial, messages, queued, appended) && n <= |queued|
    ensures forall m :: m in queued[..n] ==> m.Input?
    ensures Delivered(initial, messages + queued[..n], queued[n..], appended)
  {
    ProjectInputs(messages, queued[..n]);
    assert queued == queued[..n] + queued[n..];
  }

  lemma QueueMore(initial: seq<ChatMessage>, messages: seq<ChatMessage>, queued: seq<ChatMessage>,
                  appended: seq<ChatMessage>, content: string)
    requires Delivered(initial, messages, queued, appended)
    ensures Delivered(initial, messages, queued + [Input(content)], appended + [Input(content)])
  {
    assert Inputs(messages) + (queued + [Input(content)]) == (Inputs(messages) + queued) + [Input(content)];
    assert Inputs(initial) + (appended + [Input(content)]) == (Inputs(initial) + appended) + [Input(content)];
  }

  // ---------------------------------------------------------------- outcome

  /** What the status and the result may be, given the rest of the run. */
  predicate OutcomeOk(status: RunStatus, result: Option<RunResult>, stats: RunStats, limits: Limits, cancelRequested: bool,
                      driving: bool)
  {
    && stats.modelCalls <= limits.maxModelCalls && stats.toolCalls <= limits.maxToolCalls
    && (status.Terminal() <==> result.Some?)
    && (status.Terminal() ==> result.value.status == status && result.value.stats == stats)
    && (status.Terminal() && cancelRequested ==> status.Cancelled? || status.Failed?)
    && (status.LimitReached? ==> stats.modelCalls == limits.maxModelCalls || stats.toolCalls == limits.maxToolCalls)
    && (driving ==> !status.Ready?)
    && (!driving && cancelRequested ==> status.Terminal())
  }

  /** A completed run has delivered every message and answered every call, and its output is the
      final assistant message. */
  predicate AnswerOk(output: Option<string>, messages: seq<ChatMessage>, queued: seq<ChatMessage>,
                     calls: seq<CallRecord>, settled: nat)
  {
    && queued == [] && settled == |calls|
    && messages != [] && messages[|messages| - 1].Assistant? && messages[|messages| - 1].calls == []
    && output == Some(messages[|messages| - 1].content)
  }

  /** No call is started. */
  predicate Idle(calls: seq<CallRecord>, settled: nat) {
    settled < |calls| ==> !calls[settled].status.InFlight?
  }

  /** No call is of unknown effect. */
  predicate Known(calls: seq<CallRecord>, settled: nat) {
    settled < |calls| ==> !calls[settled].status.Unknown?
  }

  /** The unanswered calls of the history are exactly the records that are pending, started or
      unknown, read positionally on both sides. */
  lemma OpenCallsAreUnanswered(initial: seq<ChatMessage>, messages: seq<ChatMessage>, calls: seq<CallRecord>, settled: nat)
    requires Paired(initial, messages, calls, settled)
    ensures WellPaired(messages)
    ensures forall id :: OpenAt(messages, |messages|, id) <==>
                         exists r :: r in calls && r.call.callId == id && Unanswered(r)
  {
    hide WellPaired, OpenAt, Pair;
    PairDecidesWellPaired(messages);
    forall id ensures OpenAt(messages, |messages|, id) <==> exists r :: r in calls && r.call.callId == id && Unanswered(r) {
      assert PairingIs(messages, Pair(messages).value);
      if OpenAt(messages, |messages|, id) {
        var r :| r in calls[settled..] && r.call.callId == id;
        assert r in calls && Unanswered(r);
      }
      if exists r :: r in calls && r.call.callId == id && Unanswered(r) {
        var i :| 0 <= i < |calls| && calls[i].call.callId == id && Unanswered(calls[i]);
        assert i >= settled;
        assert calls[settled..][i - settled] == calls[i];
        assert calls[i] in calls[settled..];
      }
    }
  }

  /** The two abbreviations speak of every call. */
  lemma OnlyTheFirstOpenCall(initial: seq<ChatMessage>, messages: seq<ChatMessage>, calls: seq<CallRecord>, settled: nat)
    requires Paired(initial, messages, calls, settled)
    ensures Idle(calls, settled) <==> forall r :: r in calls ==> !r.status.InFlight?
    ensures Known(calls, settled) <==> forall r :: r in calls ==> !r.status.Unknown?
    ensures forall i, j :: 0 <= i < |calls| && 0 <= j < |calls| && calls[i].status.InFlight? && calls[j].status.InFlight? ==> i == j
  {
    if settled < |calls| {
      assert calls[settled] in calls;
    }
  }

  lemma FirstOpen(initial: seq<ChatMessage>, messages: seq<ChatMessage>, calls: seq<CallRecord>, settled: nat)
    requires Paired(initial, messages, calls, settled)
    ensures settled <= |calls| && DistinctRecords(calls)
    ensures settled < |calls| ==> Unanswered(calls[settled])
    ensures settled + 1 < |calls| ==> calls[settled + 1] == CallRecord(calls[settled + 1].call, Pending, None)
  {}

  lemma PendingNext(initial: seq<ChatMessage>, messages: seq<ChatMessage>, calls: seq<CallRecord>, settled: nat)
    requires Paired(initial, messages, calls, settled) && Idle(calls, settled) && Known(calls, settled)
    ensures PendingOf(calls) == CallsOf(calls[settled..])
    ensures settled < |calls| ==> calls[settled] == CallRecord(calls[settled].call, Pending, None)
  {
    PendingSuffix(calls, settled);
  }

  // ---------------------------------------------------------------- what the awaits decide

  /** What a run is made with. */
  datatype Setting = Setting(env: Environment, tools: set<string>, hasPolicy: bool, limits: Limits)

  /** Where a run is; `settled` calls have been answered, `output` is the output of its result. */
  datatype Snapshot = Snapshot(
    messages: seq<ChatMessage>, queued: seq<ChatMessage>, calls: seq<CallRecord>, settled: nat, stats: RunStats,
    status: RunStatus, output: Option<string>, cancelRequested: bool, clock: nat)
  {
    /** A call waits for its turn, and nothing has happened to it yet. */
    predicate Open() { settled < |calls| }
  }

  const NOT_LISTED := ToolOutput("tool not in the catalogue", true)
  const NOT_VALID := ToolOutput("arguments do not match the schema", true)
  const REPORTED := ToolOutput("tool reported failure", true)

  /** One await has passed. */
  function Waited(c: Setting, v: Snapshot, host: seq<HostAction>): Snapshot {
    v.(queued := v.queued + Admitted(c.env, host), cancelRequested := v.cancelRequested || Cancel in host, clock := v.clock + 1)
  }

  function Ending(v: Snapshot, status: RunStatus, output: Option<string>): Snapshot {
    v.(status := status, output := output)
  }

  function RecordOf(call: ToolCall, output: ToolOutput): CallRecord {
    CallRecord(call, if output.isError then CallFailed else Succeeded, Some(output))
  }

  /** The first open call is answered. */
  function Answering(v: Snapshot, output: ToolOutput): Snapshot
    requires v.Open()
  {
    var call := v.calls[v.settled].call;
    v.(calls := v.calls[v.settled := RecordOf(call, output)], settled := v.settled + 1,
       messages := v.messages + [ToolResult(call.callId, output.content, output.isError)])
  }

  /** The first n open calls are answered alike. */
  function AnsweringAll(v: Snapshot, n: nat, output: ToolOutput): (w: Snapshot)
    requires v.settled + n <= |v.calls|
    ensures w.settled == v.settled + n && |w.calls| == |v.calls|
  {
    if n == 0 then v else Answering(AnsweringAll(v, n - 1, output), output)
  }

  /** The first open call gets a status. */
  function Marking(v: Snapshot, status: CallStatus): Snapshot
    requires v.Open()
  {
    v.(calls := v.calls[v.settled := CallRecord(v.calls[v.settled].call, status, None)])
  }

  function Starting(v: Snapshot): Snapshot
    requires v.Open()
  {
    Marking(v, InFlight).(stats := v.stats.(toolCalls := v.stats.toolCalls + 1))
  }

  /** A started call becomes one of unknown effect. */
  function Marked(v: Snapshot): Snapshot {
    if v.Open() && v.calls[v.settled].status.InFlight?
    then v.(calls := v.calls[v.settled := v.calls[v.settled].(status := Unknown)]) else v
  }

  /** After the policy: where the run is, what it raised, and whether the call may start. */
  function AfterPolicy(c: Setting, v: Snapshot): (Snapshot, Signal, bool)
    requires v.Open()
  {
    if !c.hasPolicy then (v, Normal, true)
    else
      var decision := c.env.beforeTool(v.clock);
      var w := Waited(c, v, decision.host);
      if decision.outcome.Err? then (w, Raised(decision.outcome.error), false)
      else
        var answer := decision.outcome.value;
        if answer.NotADecision? then (w, Raised(TypeInvalid), false)
        else if w.cancelRequested then (w, Normal, false)
        else if answer.Allow? then (w, Normal, true)
        else (AnsweringAll(w, if answer.Deny? then 1 else |w.calls| - w.settled, ToolOutput(answer.content, true)), Normal, false)
  }

  function AfterExecution(c: Setting, v: Snapshot): (Snapshot, Signal)
    requires v.Open()
  {
    var answer := c.env.execute(v.clock);
    var w := Waited(c, Starting(v), answer.host);
    match answer.outcome
    case Ok(Output(output)) => (Answering(w, output), Normal)
    case Err(ToolExecution) => (Answering(w, REPORTED), Normal)
    case Err(ToolEffectUnknown) => (Ending(Marked(w), Failed, None), Normal)
    case Err(error) => (w, Raised(error))
    case Ok(NotAnOutput) => (w, Raised(TypeInvalid))
  }

  function AfterTool(c: Setting, v: Snapshot): (Snapshot, Signal)
    requires v.Open()
  {
    var call := v.calls[v.settled].call;
    if v.stats.toolCalls >= c.limits.maxToolCalls then (Ending(v, LimitReached, None), Normal)
    else if call.name !in c.tools then (Answering(v, NOT_LISTED), Normal)
    else if !c.env.validArguments(call) then (Answering(v, NOT_VALID), Normal)
    else
      var (w, s, allowed) := AfterPolicy(c, v);
      if allowed then AfterExecution(c, w) else (w, s)
  }

  /** Why a request is not sent, if it is not. */
  ghost function Refusal(env: Environment, request: seq<ChatMessage>): Option<Error> {
    if !(request != [] && request[0].System? && WellPaired(request[1..]) && NothingOpenAt(request[1..], |request| - 1)) then Some(ValueInvalid)
    else if env.overBudget(request) then Some(ContextBudget)
    else None
  }

  /** The messages taken for the request are delivered, and the model is asked. */
  function Asking(v: Snapshot, taken: nat): Snapshot
    requires taken <= |v.queued|
  {
    v.(messages := v.messages + v.queued[..taken], queued := v.queued[taken..],
       stats := v.stats.(modelCalls := v.stats.modelCalls + 1))
  }

  /** The model has answered; no await is left. */
  function AfterResponse(v: Snapshot, content: string, proposed: seq<ToolCall>, usage: Option<Usage>): (Snapshot, Signal) {
    var updated := v.messages + [Assistant(content, proposed)];
    if Pair(updated).None? then (v, Raised(ValueInvalid))
    else
      var w := v.(messages := updated, calls := v.calls + Fresh(proposed),
                  stats := v.stats.(usage := AddedUsage(v.stats.usage, usage)));
      if proposed == [] && w.queued == [] && !w.cancelRequested then (Ending(w, Completed, Some(content)), Normal)
      else (w, Normal)
  }

  ghost function AfterModel(c: Setting, v: Snapshot): (Snapshot, Signal) {
    if v.stats.modelCalls >= c.limits.maxModelCalls then (Ending(v, LimitReached, None), Normal)
    else
      var assembled := c.env.assemble(v.clock);
      var w := Waited(c, v, assembled.host);
      if assembled.outcome.Err? then (w, Raised(assembled.outcome.error))
      else if w.cancelRequested then (w, Normal)
      else if Refusal(c.env, assembled.outcome.value).Some? then (w, Raised(Refusal(c.env, assembled.outcome.value).value))
      else
        var answer := c.env.complete(w.clock);
        var x := Waited(c, Asking(w, |v.queued|), answer.host);
        match answer.outcome
        case Err(error) => (x, Raised(error))
        case Ok(NotAResponse) => (x, Raised(TypeInvalid))
        case Ok(Response(content, proposed, usage)) => AfterResponse(x, content, proposed, usage)
  }

  /** One step of the driver. */
  ghost function AfterStep(c: Setting, v: Snapshot): (Snapshot, Signal) {
    if v.cancelRequested then (Ending(v, Cancelled, None), Normal)
    else
      var (w, s) := if v.Open() then AfterTool(c, v) else AfterModel(c, v);
      if s.Normal? && w.cancelRequested && !w.status.Terminal() then (Ending(w, Cancelled, None), s) else (w, s)
  }

  /** What the driver makes of the signal of a step. */
  function Concluded(v: Snapshot, s: Signal): Snapshot {
    match s
    case Normal => v
    case Raised(TaskCancelled) => Ending(Marked(v.(cancelRequested := true)), Cancelled, None)
    case Raised(_) => Ending(Marked(v), Failed, None)
  }

  /** Which errors the driver passes on. */
  function PassedOn(s: Signal): Signal {
    if s == Raised(ContextBudget) || s == Raised(ModelFailure) then Normal else s
  }

  /** Where n steps lead that all go on. */
  ghost function StepsOn(c: Setting, v: Snapshot, n: nat): Snapshot {
    if n == 0 then v else AfterStep(c, StepsOn(c, v, n - 1)).0
  }

  ghost predicate GoesOn(c: Setting, v: Snapshot) {
    AfterStep(c, v).1.Normal? && !AfterStep(c, v).0.status.Terminal()
  }

  // ---------------------------------------------------------------- how a step ends, read off its awaits

  /** The step asks for a request: no call is open, and there is a model call left. */
  predicate Assembles(c: Setting, v: Snapshot) {
    !v.cancelRequested && !v.Open() && v.stats.modelCalls < c.limits.maxModelCalls
  }

  /** The request is there, may be sent, and nobody cancelled meanwhile: the model is called. */
  ghost predicate Calls(c: Setting, v: Snapshot) {
    && Assembles(c, v)
    && var assembled := c.env.assemble(v.clock);
       assembled.outcome.Ok? && Cancel !in assembled.host && Sendable(c.env, assembled.outcome.value)
  }

  /** The first open call could be started: a start is left, the tool is listed, its arguments are valid. */
  predicate Considers(c: Setting, v: Snapshot) {
    && !v.cancelRequested && v.Open() && v.stats.toolCalls < c.limits.maxToolCalls
    && v.calls[v.settled].call.name in c.tools && c.env.validArguments(v.calls[v.settled].call)
  }

  predicate Consults(c: Setting, v: Snapshot) {
    Considers(c, v) && c.hasPolicy
  }

  /** It is started: without a policy, or with its consent. */
  predicate Executes(c: Setting, v: Snapshot) {
    && Considers(c, v)
    && (c.hasPolicy ==> var decision := c.env.beforeTool(v.clock);
                        decision.outcome.Ok? && decision.outcome.value.Allow? && Cancel !in decision.host)
  }

  function Execution(c: Setting, v: Snapshot): Await<ToolAnswer> {
    c.env.execute(v.clock + if c.hasPolicy then 1 else 0)
  }

  /** The model's answer fits the history it was given. */
  ghost predicate Fitting(v: Snapshot, answer: ModelAnswer)
    requires answer.Response?
  {
    WellPaired(v.messages + v.queued + [Assistant(answer.content, answer.calls)])
  }

  /** The step raises this error: an await raised it or answered with something foreign, the request must not
      be sent, or the answer does not fit. */
  ghost predicate Breaks(c: Setting, v: Snapshot, e: Error) {
    || (Assembles(c, v)
        && var assembled := c.env.assemble(v.clock);
           || assembled.outcome == Err(e)
           || (assembled.outcome.Ok? && Cancel !in assembled.host && Refusal(c.env, assembled.outcome.value) == Some(e)))
    || (Calls(c, v)
        && match c.env.complete(v.clock + 1).outcome
           case Err(error) => e == error
           case Ok(answer) => if answer.NotAResponse? then e == TypeInvalid else e == ValueInvalid && !Fitting(v, answer))
    || (Consults(c, v)
        && match c.env.beforeTool(v.clock).outcome
           case Err(error) => e == error
           case Ok(answer) => answer.NotADecision? && e == TypeInvalid)
    || (Executes(c, v)
        && match Execution(c, v).outcome
           case Err(error) => e == error && !error.ToolExecution? && !error.ToolEffectUnknown?
           case Ok(answer) => answer.NotAnOutput? && e == TypeInvalid)
  }

  /** What the started call did to the world is unknown. */
  predicate Loses(c: Setting, v: Snapshot) {
    Executes(c, v) && Execution(c, v).outcome == Err(ToolEffectUnknown)
  }

  /** The host asked for cancellation, before the step or during one of its awaits. */
  ghost predicate Interrupted(c: Setting, v: Snapshot) {
    || v.cancelRequested
    || (Assembles(c, v) && Cancel in c.env.assemble(v.clock).host)
    || (Calls(c, v) && Cancel in c.env.complete(v.clock + 1).host)
    || (Consults(c, v) && Cancel in c.env.beforeTool(v.clock).host)
    || (Executes(c, v) && Cancel in Execution(c, v).host)
  }

  /** The step meets a limit before it awaits anything. */
  predicate MeetsLimit(c: Setting, v: Snapshot) {
    && !v.cancelRequested
    && if v.Open() then v.stats.toolCalls >= c.limits.maxToolCalls else v.stats.modelCalls >= c.limits.maxModelCalls
  }

  ghost predicate Fails(c: Setting, v: Snapshot) {
    Loses(c, v) || exists e :: e != TaskCancelled && Breaks(c, v, e)
  }

  /** The driver itself was cancelled, or the host asked for it and nothing went wrong. */
  ghost predicate IsCancelled(c: Setting, v: Snapshot) {
    Breaks(c, v, TaskCancelled) || (Interrupted(c, v) && !Fails(c, v))
  }

  /** The model was called and answered without proposing anything, and no message came in meanwhile. */
  ghost predicate Completes(c: Setting, v: Snapshot, content: string) {
    && Calls(c, v) && !Interrupted(c, v)
    && var answer := c.env.complete(v.clock + 1);
       && answer.outcome.Ok? && answer.outcome.value.Response? && Fitting(v, answer.outcome.value)
       && answer.outcome.value.content == content && answer.outcome.value.calls == []
       && Admitted(c.env, c.env.assemble(v.clock).host) == [] && Admitted(c.env, answer.host) == []
  }

  /** Each status a step can end with, exactly when its awaits give cause for it. */
  ghost predicate EndsRightly(c: Setting, v: Snapshot, w: Snapshot, s: Signal) {
    && (w.status.Failed? <==> Fails(c, v))
    && (w.status.Cancelled? <==> IsCancelled(c, v))
    && (w.status.LimitReached? <==> MeetsLimit(c, v))
    && (w.status.Completed? <==> exists content :: Completes(c, v, content))
    && (w.status.Completed? ==> w.output.Some? && Completes(c, v, w.output.value))
    && (w.status.Terminal() && !w.status.Completed? ==> w.output.None?)
    && (s.Raised? ==> Breaks(c, v, s.error))
    && (forall e :: Breaks(c, v, e) ==> s == PassedOn(Raised(e)))
  }

  /** A drive from a running state: n steps of which all but the last go on; the last one ends it, or it is
      the only one that was asked for. */
  ghost predicate Drove(c: Setting, start: Snapshot, n: nat, continuous: bool) {
    && n > 0 && (if continuous then !GoesOn(c, StepsOn(c, start, n - 1)) else n == 1)
    && forall i :: 0 <= i < n - 1 ==> GoesOn(c, StepsOn(c, start, i))
  }

  /** The drive ends as its last step does, and that step ends as its awaits give cause for; they are among
      those between the start of the drive and its end. */
  ghost predicate DriveEnds(c: Setting, start: Snapshot, n: nat, w: Snapshot, s: Signal)
    requires n > 0
  {
    var last := StepsOn(c, start, n - 1);
    && w == Concluded(AfterStep(c, last).0, AfterStep(c, last).1) && s == PassedOn(AfterStep(c, last).1)
    && start.clock <= last.clock <= w.clock
    && EndsRightly(c, last, w, s)
  }

  // ---------------------------------------------------------------- the run

  class Run {
    const env: Environment
    const tools: set<string>
    const hasPolicy: bool
    const limits: Limits
    ghost const initial: seq<ChatMessage>

    var messages: seq<ChatMessage>
    var queued: seq<ChatMessage>
    var calls: seq<CallRecord>
    var stats: RunStats
    var status: RunStatus
    var result: Option<RunResult>
    var cancelRequested: bool
    var driving: bool
    var events: seq<RunEvent>
    var clock: nat

    ghost var appended: seq<ChatMessage>  // every message the host ever queued
    ghost var settled: nat                // how many calls have been answered

    function Config(): Setting {
      Setting(env, tools, hasPolicy, limits)
    }

    ghost function Snap(): Snapshot
      reads this
    {
      Snapshot(messages, queued, calls, settled, stats, status, if result.Some? then result.value.output else None, cancelRequested, clock)
    }

    /** What holds at every await and between any two host calls, up to calls of unknown effect. */
    ghost predicate Core()
      reads this
    {
      && Paired(initial, messages, calls, settled)
      && Delivered(initial, messages, queued, appended)
      && LogOk(events, calls, status, cancelRequested, stats)
      && OutcomeOk(status, result, stats, limits, cancelRequested, driving)
      && (status.Completed? ==> AnswerOk(result.value.output, messages, queued, calls, settled))
      && (status.Terminal() || !driving ==> Idle(calls, settled))
    }

    ghost predicate Valid()
      reads this
    {
      Core() && (status.Terminal() || Known(calls, settled))
    }

    /** The driver is inside a run that goes on. */
    ghost predicate Driven()
      reads this
    {
      Valid() && driving && !status.Terminal()
    }

    constructor (env: Environment, tools: set<string>, hasPolicy: bool, limits: Limits, history: seq<ChatMessage>,
                 message: string)
      requires 1 <= limits.maxModelCalls
      requires WellPaired(history) && NothingOpenAt(history, |history|)
      ensures Valid() && status.Ready? && !driving && !cancelRequested
      ensures messages == history + [Input(message)] && queued == [] && calls == []
      ensures this.env == env && this.tools == tools && this.hasPolicy == hasPolicy && this.limits == limits
      ensures initial == messages && appended == []
    {
      hide Paired, LogOk, Pair, WellPaired, NothingOpenAt;
      PairDecidesWellPaired(history);
      this.env, this.tools, this.hasPolicy, this.limits := env, tools, hasPolicy, limits;
      initial := history + [Input(message)];
      messages, queued, calls := history + [Input(message)], [], [];
      stats, status, result := RunStats(0, 0, None), Ready, None;
      cancelRequested, driving, clock := false, false, 0;
      events := [RunEvent(1, Created, Ready, None)];
      appended, settled := [], 0;
      new;
      StartPaired(history, message);
      StartLogged(events[0]);
    }

    method Emit(kind: EventKind, callId: Option<CallId>)
      modifies this`events
      ensures events == old(events) + [Entry(old(events), kind, status, callId)]
    {
      events := events + [RunEvent(|events| + 1, kind, status, callId)];
    }

    /** A run that goes on has no result. */
    lemma Unfinished()
      requires Core() && !status.Terminal()
      ensures result.None?
    {
      hide Paired, Delivered, LogOk, AnswerOk;
    }

    method Finish(status: RunStatus, output: Option<string>, reason: string)
      requires Core() && !this.status.Terminal() && status.Terminal() && Idle(calls, settled)
      requires cancelRequested ==> status.Cancelled? || status.Failed?
      requires status.LimitReached? ==> stats.modelCalls == limits.maxModelCalls || stats.toolCalls == limits.maxToolCalls
      requires status.Completed? ==> AnswerOk(output, messages, queued, calls, settled)
      modifies this`status, this`result, this`events
      ensures Valid() && this.status == status && Snap() == Ending(old(Snap()), status, output)
      ensures result == Some(RunResult(status, output, reason, stats))
      ensures events == old(events) + [Entry(old(events), Finished, status, None)]
    {
      hide Paired, Delivered, LogOk, AnswerOk, Idle, Known;
      LogFinish(events, calls, this.status, cancelRequested, stats, status);
      this.status := status;
      result := Some(RunResult(status, output, reason, stats));
      Emit(Finished, None);
    }

    // -------------------------------------------------------------- the host's side

    method AppendMessage(content: string) returns (s: Signal)
      requires Valid()
      modifies this`queued, this`events, this`appended
      ensures old(events) <= events
      ensures Valid()
      ensures s == if status.Terminal() then Raised(RuntimeMisuse)
                   else if env.isBlank(content) then Raised(ValueInvalid) else Normal
      ensures s.Raised? ==> unchanged(this)
      ensures s.Normal? ==> queued == old(queued) + [Input(content)] && appended == old(appended) + [Input(content)]
      ensures s.Normal? ==> events == old(events) + [Entry(old(events), MessageQueued, status, None)]
    {
      hide Paired, Delivered, LogOk, OutcomeOk, AnswerOk, Idle, Known;
      if status.Terminal() {
        return Raised(RuntimeMisuse);
      }
      if env.isBlank(content) {
        return Raised(ValueInvalid);
      }
      QueueMore(initial, messages, queued, appended, content);
      queued := queued + [Input(content)];
      appended := appended + [Input(content)];
      LogQuiet(events, calls, status, cancelRequested, stats, MessageQueued);
      Emit(MessageQueued, None);
      return Normal;
    }

    /** A cancel outside the driver ends the run at once; inside, the driver settles it. */
    method RequestCancel()
      requires Valid()
      modifies this`cancelRequested, this`status, this`result, this`events
      ensures old(events) <= events
      ensures Valid()
      ensures old(status.Terminal()) ==> unchanged(this)
      ensures !old(status.Terminal()) ==> cancelRequested
      ensures driving ==> status == old(status) && result == old(result)
      ensures !driving && !old(status.Terminal()) ==> status.Cancelled?
      ensures driving && !old(status.Terminal()) && !old(cancelRequested) ==>
                events == old(events) + [Entry(old(events), CancelRequested, status, None)]
      ensures old(cancelRequested) ==> unchanged(this)
    {
      hide Paired, Delivered, LogOk, AnswerOk, Idle, Known;
      if status.Terminal() || cancelRequested {
        return;
      }
      LogCancel(events, calls, status, stats);
      cancelRequested := true;
      Emit(CancelRequested, None);
      if !driving {
        LogFinish(events, calls, status, true, stats, Cancelled);
        status := Cancelled;
        result := Some(RunResult(Cancelled, None, "cancelled by host", stats));
        Emit(Finished, None);
      }
    }

    /** The log is numbered from 1, and the finish event closes it once the run has ended. */
    lemma Numbered()
      requires Valid()
      ensures 0 < |events| && forall i :: 0 <= i < |events| ==> events[i].sequence == i + 1
      ensures status.Terminal() ==> events[|events| - 1].kind.Finished?
    {
      hide Paired, Delivered, OutcomeOk, Known, Traced, CountOf;
    }

    /** `events`, up to its first yield: a cursor outside the log is refused. */
    method Events(after: int) returns (r: Result<Subscription, Error>)
      requires Valid()
      ensures r.Err? <==> after < 0 || after > |events|
      ensures r.Ok? ==> fresh(r.value) && r.value.run == this && r.value.after == after && r.value.InStep() && r.value.received == []
    {
      if after < 0 || after > |events| {
        return Err(ValueInvalid);
      }
      var subscription := new Subscription(this, after);
      return Ok(subscription);
    }

    /** One action of the host while the driver awaits. */
    method Act(action: HostAction)
      requires Driven()
      modifies this`queued, this`events, this`appended, this`cancelRequested, this`status, this`result
      ensures old(events) <= events
      ensures Driven() && status == old(status) && result == old(result)
      ensures queued == old(queued) + Admitted(env, [action])
      ensures cancelRequested == (old(cancelRequested) || action.Cancel?)
    {
      hide Paired, Delivered, LogOk, OutcomeOk, AnswerOk, Idle, Known;
      assert [action][..0] == [] && queued + [] == queued;
      match action {
        case Append(content) => var _ := AppendMessage(content);
        case Cancel => RequestCancel();
      }
    }

    /** The host's actions during one await of the driver. */
    method Suspend(host: seq<HostAction>)
      requires Driven()
      modifies this`queued, this`events, this`appended, this`cancelRequested, this`status, this`result, this`clock
      ensures old(events) <= events
      ensures Driven() && clock == old(clock) + 1
      ensures queued == old(queued) + Admitted(env, host)
      ensures cancelRequested == (old(cancelRequested) || Cancel in host)
      ensures Snap() == Waited(Config(), old(Snap()), host)
    {
      hide Paired, Delivered, LogOk, OutcomeOk, AnswerOk, Idle, Known, Admitted;
      clock := clock + 1;
      AdmittedNone(env);
      assert host[..0] == [] && queued + [] == queued;
      for i := 0 to |host|
        invariant old(events) <= events
        invariant Driven() && status == old(status) && result == old(result)
        invariant queued == old(queued) + Admitted(env, host[..i])
        invariant cancelRequested == (old(cancelRequested) || Cancel in host[..i])
        modifies this`queued, this`events, this`appended, this`cancelRequested, this`status, this`result
      {
        assert host[..i + 1] == host[..i] + [host[i]];
        AdmittedNext(env, host[..i], host[i]);
        Act(host[i]);
      }
      assert host[..|host|] == host;
    }

    // -------------------------------------------------------------- one step of the driver

    method RecordOutput(call: ToolCall, output: ToolOutput)
      requires Driven() && settled < |calls| && calls[settled].call == call
      modifies this`calls, this`messages, this`events, this`settled
      ensures old(events) <= events
      ensures Driven() && settled == old(settled) + 1 && Idle(calls, settled)
      ensures calls == old(calls)[old(settled) := CallRecord(call, if output.isError then CallFailed else Succeeded, Some(output))]
      ensures messages == old(messages) + [ToolResult(call.callId, output.content, output.isError)]
      ensures events == old(events) + [Entry(old(events), ToolCompleted, status, Some(call.callId))]
      ensures Snap() == Answering(old(Snap()), output)
    {
      hide Paired, Delivered, LogOk, OutcomeOk, AnswerOk;
      var record := CallRecord(call, if output.isError then CallFailed else Succeeded, Some(output));
      FirstOpen(initial, messages, calls, settled);
      PutAt(calls, settled, record);
      PairedAnswer(initial, messages, calls, settled, record);
      DeliverOther(initial, messages, queued, appended, ResultOf(record));
      LogCall(events, calls, status, cancelRequested, stats, settled, record, ToolCompleted);
      calls := Put(calls, record);
      messages := messages + [ToolResult(call.callId, output.content, output.isError)];
      settled := settled + 1;
      Emit(ToolCompleted, Some(call.callId));
    }

    /** Asks the policy; a denial answers this call, a reconsideration answers every pending one. */
    method AllowTool(call: ToolCall) returns (s: Signal, allowed: bool)
      requires Driven() && !cancelRequested && settled < |calls| && calls[settled] == CallRecord(call, Pending, None)
      modifies this
      ensures old(events) <= events
      ensures Driven() && stats == old(stats) && Idle(calls, settled) && |calls| == |old(calls)|
      ensures clock == old(clock) + if hasPolicy then 1 else 0
      ensures s.Raised? <==> hasPolicy && (env.beforeTool(old(clock)).outcome.Err? || env.beforeTool(old(clock)).outcome.value.NotADecision?)
      ensures allowed <==>
                !hasPolicy || (s.Normal? && !cancelRequested && env.beforeTool(old(clock)).outcome.value.Allow?)
      ensures cancelRequested == (hasPolicy && Cancel in env.beforeTool(old(clock)).host)
      ensures s.Normal? && !allowed && !cancelRequested ==>
                var answer := env.beforeTool(old(clock)).outcome.value;
                && settled == (if answer.Reconsider? then |calls| else old(settled) + 1)
                && (forall i :: old(settled) <= i < settled ==>
                      calls[i] == CallRecord(old(calls)[i].call, CallFailed, Some(ToolOutput(answer.content, true))))
      ensures s.Raised? || allowed || cancelRequested ==> calls == old(calls) && settled == old(settled)
      ensures forall i :: 0 <= i < |calls| && !(old(settled) <= i < settled) ==> calls[i] == old(calls)[i]
      ensures (Snap(), s, allowed) == AfterPolicy(Config(), old(Snap()))
    {
      hide Paired, Delivered, LogOk, OutcomeOk, AnswerOk, Answering, AnsweringAll, Admitted;
      if !hasPolicy {
        return Normal, true;
      }
      var answer := env.beforeTool(clock);
      Suspend(answer.host);
      if answer.outcome.Err? {
        return Raised(answer.outcome.error), false;
      }
      if answer.outcome.value.NotADecision? {
        return Raised(TypeInvalid), false;
      }
      if cancelRequested {
        return Normal, false;
      }
      if answer.outcome.value.Allow? {
        return Normal, true;
      }
      PendingNext(initial, messages, calls, settled);
      var targets := if answer.outcome.value.Reconsider? then PendingOf(calls) else [call];
      var content := answer.outcome.value.content;
      RecordAll(targets, ToolOutput(content, true));
      return Normal, false;
    }

    /** A denial answers every target with the same output, in order. */
    method RecordAll(targets: seq<ToolCall>, output: ToolOutput)
      requires Driven() && Idle(calls, settled) && settled + |targets| <= |calls| && output.isError
      requires forall j :: 0 <= j < |targets| ==> targets[j] == calls[settled + j].call
      modifies this`calls, this`messages, this`events, this`settled
      ensures old(events) <= events
      ensures Driven() && Idle(calls, settled) && settled == old(settled) + |targets| && |calls| == |old(calls)|
      ensures forall j :: 0 <= j < |calls| && !(old(settled) <= j < settled) ==> calls[j] == old(calls)[j]
      ensures forall j :: old(settled) <= j < settled ==> calls[j] == CallRecord(old(calls)[j].call, CallFailed, Some(output))
      ensures Snap() == AnsweringAll(old(Snap()), |targets|, output)
    {
      hide Paired, Delivered, LogOk, OutcomeOk, AnswerOk, Answering;
      for i := 0 to |targets|
        invariant old(events) <= events
        invariant Snap() == AnsweringAll(old(Snap()), i, output)
        invariant Driven() && Idle(calls, settled)
        invariant settled == old(settled) + i && |calls| == |old(calls)|
        invariant forall j :: 0 <= j < |calls| && !(old(settled) <= j < settled) ==> calls[j] == old(calls)[j]
        invariant forall j :: old(settled) <= j < settled ==> calls[j] == CallRecord(old(calls)[j].call, CallFailed, Some(output))
      {
        assert calls[settled] == old(calls)[old(settled) + i];
        RecordOutput(targets[i], output);
      }
    }

    /** Turns the started call, if there is one, into a call of unknown effect. */
    method MarkUnknown()
      requires Driven()
      modifies this`calls, this`events
      ensures old(events) <= events
      ensures Core() && driving && !status.Terminal() && Idle(calls, settled)
      ensures settled <= |calls|
      ensures calls == if settled < |old(calls)| && old(calls)[settled].status.InFlight?
                       then old(calls)[settled := old(calls)[settled].(status := Unknown)] else old(calls)
      ensures Snap() == Marked(old(Snap()))
    {
      hide Delivered, LogOk, OutcomeOk, AnswerOk;
      for i := 0 to |calls|
        invariant old(events) <= events
        invariant Core() && driving && !status.Terminal() && |calls| == |old(calls)|
        invariant i <= settled ==> calls == old(calls)
        invariant i > settled ==>
                    && Idle(calls, settled)
                    && (if old(calls)[settled].status.InFlight?
                        then calls == old(calls)[settled := old(calls)[settled].(status := Unknown)]
                        else calls == old(calls))
      {
        var record := calls[i];
        if record.status.InFlight? {
          assert i == settled;
          PutAt(calls, i, record.(status := Unknown));
          PairedMark(initial, messages, calls, settled, Unknown);
          LogCall(events, calls, status, cancelRequested, stats, settled, record.(status := Unknown), ToolUnknown);
          calls := Put(calls, record.(status := Unknown));
          Emit(ToolUnknown, Some(record.call.callId));
        }
      }
    }

    method StartTool(call: ToolCall)
      requires Driven() && !cancelRequested && settled < |calls| && calls[settled] == CallRecord(call, Pending, None)
      requires stats.toolCalls < limits.maxToolCalls
      modifies this`stats, this`calls, this`events
      ensures old(events) <= events
      ensures Driven() && calls == old(calls)[settled := CallRecord(call, InFlight, None)]
      ensures stats == old(stats).(toolCalls := old(stats.toolCalls) + 1)
      ensures events == old(events) + [Entry(old(events), ToolStarted, status, Some(call.callId))]
      ensures Snap() == Starting(old(Snap()))
    {
      hide Paired, Delivered, LogOk, AnswerOk;
      FirstOpen(initial, messages, calls, settled);
      PutAt(calls, settled, CallRecord(call, InFlight, None));
      PairedMark(initial, messages, calls, settled, InFlight);
      LogCall(events, calls, status, cancelRequested, stats, settled, CallRecord(call, InFlight, None), ToolStarted);
      stats := stats.(toolCalls := stats.toolCalls + 1);
      calls := Put(calls, CallRecord(call, InFlight, None));
      Emit(ToolStarted, Some(call.callId));
    }

    /** A call that was allowed: started, executed, and settled by what its execution answers. */
    method ExecuteTool(call: ToolCall) returns (s: Signal)
      requires Driven() && !cancelRequested && settled < |calls| && calls[settled] == CallRecord(call, Pending, None)
      requires stats.toolCalls < limits.maxToolCalls
      modifies this
      ensures old(events) <= events
      ensures Valid() && driving && !status.LimitReached?
      ensures s.Raised? ==> !status.Terminal()
      ensures s.Normal? && !status.Terminal() ==> Idle(calls, settled) && settled == old(settled) + 1
      ensures stats == old(stats).(toolCalls := old(stats.toolCalls) + 1)
      ensures |calls| == |old(calls)| && calls == old(calls)[old(settled) := calls[old(settled)]]
      ensures match env.execute(old(clock)).outcome
              case Ok(Output(value)) =>
                s.Normal? && Answered(calls[old(settled)]) && calls[old(settled)].output == Some(value)
              case Err(ToolExecution) => s.Normal? && calls[old(settled)].status.CallFailed?
              case Err(ToolEffectUnknown) => s.Normal? && status.Failed? && calls[old(settled)].status.Unknown?
              case Ok(NotAnOutput) => s == Raised(TypeInvalid) && calls[old(settled)].status.InFlight?
              case Err(error) => s == Raised(error) && calls[old(settled)].status.InFlight?
      ensures (Snap(), s) == AfterExecution(Config(), old(Snap()))
    {
      hide Paired, Delivered, LogOk, AnswerOk, OutcomeOk, Admitted;
      StartTool(call);
      var answer := env.execute(clock);
      Suspend(answer.host);
      var output;
      match answer.outcome {
        case Err(ToolExecution) =>
          output := REPORTED;
        case Err(ToolEffectUnknown) =>
          MarkUnknown();
          Finish(Failed, None, "tool effect unknown");
          return Normal;
        case Err(error) =>
          return Raised(error);
        case Ok(NotAnOutput) =>
          return Raised(TypeInvalid);
        case Ok(Output(value)) =>
          output := value;
      }
      RecordOutput(call, output);
      return Normal;
    }

    /** One proposed call: refused without a start, or started once and settled by what its
        execution answers. The tick of the execution is the one after the policy's, if there is one. */
    method ToolStep(call: ToolCall) returns (s: Signal)
      requires Driven() && !cancelRequested && settled < |calls| && calls[settled] == CallRecord(call, Pending, None)
      modifies this
      ensures old(events) <= events
      ensures Valid() && driving
      ensures s.Raised? ==> !status.Terminal()
      ensures s.Normal? && !status.Terminal() ==> Idle(calls, settled)
      ensures s.Normal? && !status.Terminal() && !cancelRequested ==>
                stats.modelCalls == old(stats.modelCalls) && |calls| == |old(calls)| && settled > old(settled)
      ensures old(stats.toolCalls) >= limits.maxToolCalls <==> status.LimitReached?
      ensures status.LimitReached? ==> calls == old(calls) && messages == old(messages) && stats == old(stats)
      ensures !status.LimitReached? && (call.name !in tools || !env.validArguments(call)) ==>
                && s.Normal? && !status.Terminal() && settled == old(settled) + 1 && calls[old(settled)].status.CallFailed?
                && stats == old(stats) && clock == old(clock)
      ensures stats == old(stats) || stats == old(stats).(toolCalls := old(stats.toolCalls) + 1)
      ensures stats.toolCalls == old(stats.toolCalls) + 1 <==>
                && old(stats.toolCalls) < limits.maxToolCalls && call.name in tools && env.validArguments(call)
                && (!hasPolicy || (var decision := env.beforeTool(old(clock));
                                   && decision.outcome.Ok? && decision.outcome.value.Allow? && Cancel !in decision.host))
      ensures stats.toolCalls == old(stats.toolCalls) + 1 ==>
                var outcome := env.execute(old(clock) + if hasPolicy then 1 else 0).outcome;
                && |calls| == |old(calls)| && calls == old(calls)[old(settled) := calls[old(settled)]]
                && match outcome
                   case Ok(Output(value)) => s.Normal? && Answered(calls[old(settled)]) && calls[old(settled)].output == Some(value)
                   case Err(ToolExecution) => s.Normal? && calls[old(settled)].status.CallFailed?
                   case Err(ToolEffectUnknown) => s.Normal? && status.Failed? && calls[old(settled)].status.Unknown?
                   case Ok(NotAnOutput) => s == Raised(TypeInvalid) && calls[old(settled)].status.InFlight?
                   case Err(error) => s == Raised(error) && calls[old(settled)].status.InFlight?
      ensures (Snap(), s) == AfterTool(Config(), old(Snap()))
    {
      hide Paired, Delivered, LogOk, AnswerOk, AfterPolicy, AfterExecution;
      if stats.toolCalls >= limits.maxToolCalls {
        Finish(LimitReached, None, "tool call limit reached");
        return Normal;
      }
      if call.name !in tools {
        RecordOutput(call, NOT_LISTED);
        return Normal;
      }
      if !env.validArguments(call) {
        RecordOutput(call, NOT_VALID);
        return Normal;
      }
      var allowed;
      s, allowed := AllowTool(call);
      if s.Raised? || !allowed || cancelRequested {
        return s;
      }
      s := ExecuteTool(call);
    }

    method ApplyMessages(applied: seq<ChatMessage>)
      requires Driven() && settled == |calls| && applied <= queued
      modifies this`messages, this`queued, this`events
      ensures old(events) <= events
      ensures Driven() && messages == old(messages) + applied && queued == old(queued)[|applied|..]
      ensures events == old(events) + if applied != [] then [Entry(old(events), MessagesApplied, status, None)] else []
    {
      hide Paired, Delivered, LogOk, OutcomeOk, AnswerOk;
      if applied != [] {
        assert queued[..|applied|] == applied;
        DeliverQueue(initial, messages, queued, appended, |applied|);
        PairedDeliver(initial, messages, calls, applied);
        LogQuiet(events, calls, status, cancelRequested, stats, MessagesApplied);
        messages := messages + applied;
        queued := queued[|applied|..];
        Emit(MessagesApplied, None);
      }
    }

    /** The request must open with a system message, pair every call and fit the model. */
    method CheckRequest(request: seq<ChatMessage>) returns (s: Signal)
      ensures s.Normal? <==> Sendable(env, request)
      ensures s.Raised? ==> s.error.ValueInvalid? || s.error.ContextBudget?
      ensures s == if Refusal(env, request).Some? then Raised(Refusal(env, request).value) else Normal
    {
      hide WellPaired, NothingOpenAt, Pair;
      if request == [] || !request[0].System? {
        return Raised(ValueInvalid);
      }
      var checked := ValidateHistory(request[1..], false);
      if checked.Err? {
        return Raised(ValueInvalid);
      }
      if env.overBudget(request) {
        return Raised(ContextBudget);
      }
      return Normal;
    }

    /** Nothing is awaited between delivering the messages taken and announcing the model call. */
    method StartModel(taken: seq<ChatMessage>)
      requires Driven() && !cancelRequested && settled == |calls| && taken <= queued && stats.modelCalls < limits.maxModelCalls
      modifies this`messages, this`queued, this`events, this`stats
      ensures old(events) <= events
      ensures Driven() && messages == old(messages) + taken && queued == old(queued)[|taken|..]
      ensures stats == old(stats).(modelCalls := old(stats.modelCalls) + 1)
      ensures Snap() == Asking(old(Snap()), |taken|)
    {
      hide Paired, Delivered, LogOk, AnswerOk, Known;
      assert queued[..|taken|] == taken;
      ApplyMessages(taken);
      LogQuiet(events, calls, status, cancelRequested, stats, ModelStarted);
      stats := stats.(modelCalls := stats.modelCalls + 1);
      Emit(ModelStarted, None);
    }

    method ModelStep() returns (s: Signal)
      requires Driven() && !cancelRequested && settled == |calls|
      modifies this
      ensures old(events) <= events
      ensures Valid() && driving
      ensures s.Raised? ==> !status.Terminal()
      ensures s.Normal? && !status.Terminal() ==> Idle(calls, settled)
      ensures s.Normal? && !status.Terminal() && !cancelRequested ==> stats.modelCalls == old(stats.modelCalls) + 1
      ensures old(stats.modelCalls) >= limits.maxModelCalls <==> status.LimitReached?
      ensures stats.modelCalls == old(stats.modelCalls) || stats.modelCalls == old(stats.modelCalls) + 1
      ensures stats.modelCalls == old(stats.modelCalls) + 1 <==>
                && old(stats.modelCalls) < limits.maxModelCalls
                && var assembled := env.assemble(old(clock));
                   assembled.outcome.Ok? && Cancel !in assembled.host && Sendable(env, assembled.outcome.value)
      ensures stats.modelCalls == old(stats.modelCalls) ==> messages == old(messages) && calls == old(calls)
      ensures stats.modelCalls == old(stats.modelCalls) + 1 ==>
                var answer := env.complete(old(clock) + 1);
                && queued == Admitted(env, env.assemble(old(clock)).host) + Admitted(env, answer.host)
                && (s.Raised? ==> messages == old(messages) + old(queued) && calls == old(calls))
                && (s.Normal? ==>
                      && answer.outcome.Ok? && answer.outcome.value.Response?
                      && messages == old(messages) + old(queued) +
                                     [Assistant(answer.outcome.value.content, answer.outcome.value.calls)]
                      && calls == old(calls) + Fresh(answer.outcome.value.calls)
                      && (status.Completed? <==>
                            answer.outcome.value.calls == [] && queued == [] && Cancel !in answer.host))
      ensures (Snap(), s) == AfterModel(Config(), old(Snap()))
    {
      hide Paired, Delivered, LogOk, AnswerOk, Known, Sendable, Admitted, AfterResponse, Refusal;
      if stats.modelCalls >= limits.maxModelCalls {
        Finish(LimitReached, None, "model call limit reached");
        return Normal;
      }
      var taken := queued;
      var assembled := env.assemble(clock);
      Suspend(assembled.host);
      if assembled.outcome.Err? {
        return Raised(assembled.outcome.error);
      }
      if cancelRequested {
        return Normal;
      }
      var request := assembled.outcome.value;
      s := CheckRequest(request);
      if s.Raised? {
        return s;
      }
      assert queued[|taken|..] == Admitted(env, assembled.host);
      StartModel(taken);
      var answer := env.complete(clock);
      Suspend(answer.host);
      if answer.outcome.Err? {
        return Raised(answer.outcome.error);
      }
      if answer.outcome.value.NotAResponse? {
        return Raised(TypeInvalid);
      }
      s := AcceptResponse(answer.outcome.value);
    }

    /** Every proposed call gets its record and its event, in order. */
    method ProposeAll(proposed: seq<ToolCall>)
      requires LogOk(events, calls, status, cancelRequested, stats) && !status.Terminal()
      requires Distinct(proposed) && RecordIds(calls) !! Ids(proposed)
      modifies this`calls, this`events
      ensures old(events) <= events && calls == old(calls) + Fresh(proposed)
      ensures LogOk(events, calls, status, cancelRequested, stats)
    {
      hide LogOk, Put, RecordIds, Ids, Distinct;
      ghost var before := calls;
      for i := 0 to |proposed|
        invariant old(events) <= events && calls == before + Fresh(proposed[..i])
        invariant LogOk(events, calls, status, cancelRequested, stats)
      {
        var call := proposed[i];
        NewId(before, proposed, i);
        PutNew(calls, CallRecord(call, Pending, None));
        LogPropose(events, calls, status, cancelRequested, stats, call);
        calls := Put(calls, CallRecord(call, Pending, None));
        Emit(ToolProposed, Some(call.callId));
        assert Fresh(proposed[..i + 1]) == Fresh(proposed[..i]) + [CallRecord(call, Pending, None)];
      }
      assert proposed[..|proposed|] == proposed;
    }

    /** The part of the model step after the model has answered; no await is left. */
    method AcceptResponse(response: ModelAnswer) returns (s: Signal)
      requires Driven() && settled == |calls| && response.Response?
      modifies this
      ensures old(events) <= events
      ensures Valid() && driving
      ensures s.Raised? ==> !status.Terminal()
      ensures s.Normal? && !status.Terminal() ==> Idle(calls, settled)
      ensures cancelRequested == old(cancelRequested) && stats.modelCalls == old(stats.modelCalls)
      ensures s.Normal? <==> Pair(old(messages) + [Assistant(response.content, response.calls)]).Some?
      ensures s.Normal? ==> messages == old(messages) + [Assistant(response.content, response.calls)]
      ensures s.Normal? ==> calls == old(calls) + Fresh(response.calls)
      ensures s.Raised? ==> messages == old(messages) && calls == old(calls)
      ensures queued == old(queued)
      ensures status.Completed? <==> s.Normal? && response.calls == [] && queued == [] && !cancelRequested
      ensures !status.LimitReached?
      ensures (Snap(), s) == AfterResponse(old(Snap()), response.content, response.calls, response.usage)
    {
      hide Paired, Delivered, LogOk, WellPaired, NothingOpenAt, Pair, Put;
      var updated := messages + [Assistant(response.content, response.calls)];
      var checked := ValidateHistory(updated, true);
      if checked.Err? {
        return Raised(ValueInvalid);
      }
      PairedPropose(initial, messages, calls, response.content, response.calls);
      DeliverOther(initial, messages, queued, appended, Assistant(response.content, response.calls));
      messages := updated;
      AddUsage(response.usage);
      LogQuiet(events, calls, status, cancelRequested, stats, ModelCompleted);
      Emit(ModelCompleted, None);
      ProposeAll(response.calls);
      if response.calls == [] && queued == [] && !cancelRequested {
        Finish(Completed, Some(response.content), "");
      }
      return Normal;
    }

    method AddUsage(usage: Option<Usage>)
      requires LogOk(events, calls, status, cancelRequested, stats)
      modifies this`stats
      ensures LogOk(events, calls, status, cancelRequested, stats)
      ensures stats.modelCalls == old(stats.modelCalls) && stats.toolCalls == old(stats.toolCalls)
      ensures stats == old(stats).(usage := AddedUsage(old(stats).usage, usage))
    {
      if usage.Some? {
        var current := if stats.usage.Some? then stats.usage.value else Usage(0, 0);
        stats := stats.(usage := Some(Usage(current.inputTokens + usage.value.inputTokens,
                                            current.outputTokens + usage.value.outputTokens)));
      }
    }

    method Advance() returns (s: Signal)
      requires Driven() && Idle(calls, settled)
      modifies this
      ensures old(events) <= events
      ensures Valid() && driving
      ensures s.Raised? ==> !status.Terminal()
      ensures s.Normal? && !status.Terminal() ==> !cancelRequested && Idle(calls, settled)
      ensures s.Normal? && !status.Terminal() ==>
                || stats.modelCalls > old(stats.modelCalls)
                || (stats.modelCalls == old(stats.modelCalls) && |calls| - settled < |old(calls)| - old(settled))
      ensures old(cancelRequested) ==> s.Normal? && status.Cancelled?
      ensures settled <= |calls|
      ensures (Snap(), s) == AfterStep(Config(), old(Snap()))
    {
      hide Paired, Delivered, LogOk, OutcomeOk, AnswerOk, PendingOf, AfterTool, AfterModel;
      FirstOpen(initial, messages, calls, settled);
      if cancelRequested {
        Finish(Cancelled, None, "cancelled by host");
        return Normal;
      }
      PendingNext(initial, messages, calls, settled);
      var pending := PendingOf(calls);
      if pending != [] {
        s := ToolStep(pending[0]);
      } else {
        s := ModelStep();
      }
      if s.Normal? && cancelRequested && !status.Terminal() {
        Finish(Cancelled, None, "cancelled by host");
      }
      FirstOpen(initial, messages, calls, settled);
    }

    /** The body of an except clause: started calls become unknown and the run ends. */
    method Settle(status: RunStatus, cancelled: bool, reason: string)
      requires Driven() && (status.Failed? || (status.Cancelled? && cancelled))
      modifies this`calls, this`events, this`status, this`result, this`cancelRequested
      ensures old(events) <= events
      ensures Valid() && driving && this.status == status && cancelRequested == (old(cancelRequested) || cancelled)
      ensures result == Some(RunResult(status, None, reason, stats))
      ensures Snap() == Ending(Marked(old(Snap()).(cancelRequested := cancelRequested)), status, None)
    {
      hide Paired, Delivered, LogOk, AnswerOk, Idle, Known;
      Unfinished();
      LogResume(events, calls, this.status, cancelRequested, stats, cancelled);
      assert this.status == Running;
      cancelRequested := cancelRequested || cancelled;
      MarkUnknown();
      Finish(status, None, reason);
    }

    /** The except clauses of the driver: which exceptions it settles itself and which it passes on. */
    method Conclude(ended: Signal) returns (s: Signal)
      requires Valid() && driving && (ended.Raised? ==> !status.Terminal())
      modifies this`calls, this`events, this`status, this`result, this`cancelRequested
      ensures old(events) <= events
      ensures Valid() && driving
      ensures ended.Normal? ==> s.Normal? && unchanged(this)
      ensures ended.Raised? ==> status.Terminal()
      ensures s.Raised? ==> s == ended && s.error != ContextBudget && s.error != ModelFailure
      ensures s == Raised(TaskCancelled) ==> status.Cancelled? && cancelRequested
      ensures s.Raised? && s.error != TaskCancelled ==> status.Failed?
      ensures Snap() == Concluded(old(Snap()), ended) && s == PassedOn(ended)
    {
      hide Paired, Delivered, LogOk, AnswerOk, OutcomeOk, Idle, Known, Marked;
      s := ended;
      match ended {
        case Normal =>
        case Raised(TaskCancelled) =>
          Settle(Cancelled, true, "driver task cancelled");
        case Raised(ContextBudget) =>
          Settle(Failed, false, "ContextBudgetError");
          s := Normal;
        case Raised(ModelFailure) =>
          Settle(Failed, false, "ModelError");
          s := Normal;
        case Raised(_) =>
          Settle(Failed, false, "unexpected");
      }
    }

    /** The drive loop with the source's except clauses; the signal is what the caller sees. */
    method Drive(continuous: bool) returns (s: Signal, ghost n: nat)
      requires Valid()
      modifies this
      ensures old(events) <= events
      ensures Valid()
      ensures old(driving) ==> s == Raised(RuntimeMisuse) && unchanged(this)
      ensures !old(driving) ==> !driving
      ensures !old(driving) && old(status.Terminal()) ==> s.Normal? && unchanged(this)
      ensures !old(driving) && continuous ==> status.Terminal()
      ensures !old(driving) && s.Raised? ==> s.error != ContextBudget && s.error != ModelFailure
      ensures !old(driving) && s == Raised(TaskCancelled) ==> status.Cancelled? && cancelRequested
      ensures !old(driving) && s.Raised? && s.error != TaskCancelled ==> status.Failed?
      ensures !old(driving) && !old(status.Terminal()) ==>
                var c, start := Config(), old(Snap()).(status := Running);
                Drove(c, start, n, continuous) && DriveEnds(c, start, n, Snap(), s)
    {
      hide Paired, Delivered, LogOk, AnswerOk, Idle, Known, AfterStep, Concluded, PassedOn, Drove, DriveEnds;
      n := 0;
      if driving {
        return Raised(RuntimeMisuse), 0;
      }
      if status.Terminal() {
        return Normal, 0;
      }
      LogResume(events, calls, status, cancelRequested, stats, false);
      driving := true;
      status := Running;
      ghost var c, start := Config(), Snap();
      s, n := Steps(continuous);
      ghost var w, ended := Snap(), s;
      s := Conclude(s);
      DriveEndsBy(c, start, n, w, ended);
      driving := false;
    }

    /** The loop of the driver: steps until one ends the run or raises, or just one step. */
    method Steps(continuous: bool) returns (s: Signal, ghost n: nat)
      requires Driven() && Idle(calls, settled)
      modifies this
      ensures old(events) <= events && Valid() && driving && (s.Raised? ==> !status.Terminal())
      ensures s.Normal? && !status.Terminal() ==> !continuous && !cancelRequested && Idle(calls, settled)
      ensures n > 0
      ensures var c, start := Config(), old(Snap());
              && Drove(c, start, n, continuous)
              && var last := StepsOn(c, start, n - 1);
                 && (Snap(), s) == AfterStep(c, last)
                 && last.settled <= |last.calls| && !last.status.Terminal() && last.output.None? && start.clock <= last.clock
    {
      hide Paired, Delivered, LogOk, AnswerOk, Idle, Known, OutcomeOk, AfterStep;
      ghost var c, start := Config(), Snap();
      ghost var last := start;
      Unfinished();
      Bounded();
      s := Advance();
      n := 1;
      while continuous && s.Normal? && !status.Terminal()
        invariant n > 0 && last == StepsOn(c, start, n - 1) && (Snap(), s) == AfterStep(c, last)
        invariant forall i :: 0 <= i < n - 1 ==> GoesOn(c, StepsOn(c, start, i))
        invariant last.settled <= |last.calls| && !last.status.Terminal() && last.output.None? && start.clock <= last.clock
        invariant n > 1 ==> continuous
        invariant old(events) <= events
        invariant Valid() && driving
        invariant s.Raised? ==> !status.Terminal()
        invariant s.Normal? && !status.Terminal() ==> !cancelRequested && Idle(calls, settled)
        invariant settled <= |calls|
        decreases s.Normal? && !status.Terminal(), limits.maxModelCalls - stats.modelCalls, |calls| - settled
      {
        Unfinished();
        Within();
        StepClock(c, last);
        last := Snap();
        assert last == StepsOn(c, start, n);
        s := Advance();
        n := n + 1;
      }
    }

    lemma Within()
      requires Core()
      ensures stats.modelCalls <= limits.maxModelCalls
    {
      hide Paired, Delivered, LogOk, AnswerOk;
    }

    lemma Bounded()
      requires Core()
      ensures settled <= |calls|
    {}
  }

  lemma SliceNext<T>(s: seq<T>, from: nat, to: nat)
    requires from <= to < |s|
    ensures s[from..to + 1] == s[from..to] + [s[to]]
  {}

  datatype Delivery = Yielded(event: RunEvent) | Ended | Waiting

  /** One live subscription of a run: whatever the run and its other subscribers do between two
      deliveries, it receives every event with a larger sequence number, in order and once. */
  class Subscription {
    const run: Run
    const after: nat
    var index: nat
    ghost var received: seq<RunEvent>

    ghost predicate InStep()
      reads this, run
    {
      run.Valid() && after <= index <= |run.events| && received == run.events[after..index]
    }

    constructor (run: Run, after: nat)
      requires run.Valid() && after <= |run.events|
      ensures this.run == run && this.after == after && InStep() && received == []
    {
      this.run, this.after, index, received := run, after, after, [];
    }

    /** The events with larger sequence numbers are those behind the cursor. */
    lemma Behind()
      requires run.Valid() && after <= |run.events|
      ensures forall e :: e in run.events[..after] ==> e.sequence <= after
      ensures forall e :: e in run.events[after..] ==> e.sequence > after
    {
      hide Run.Valid;
      run.Numbered();
    }

    /** Up to the next yield, return or wait. A subscription waits exactly while it has everything and
        the run goes on; it ends only behind the finish event. */
    method Next() returns (d: Delivery)
      requires InStep()
      modifies this
      ensures InStep() && received == old(received) + if d.Yielded? then [d.event] else []
      ensures d.Yielded? <==> old(index) < |run.events|
      ensures d.Yielded? ==> d.event.sequence == after + |received|
      ensures d.Ended? <==> old(index) == |run.events| && run.status.Terminal()
      ensures d.Ended? ==> received == run.events[after..] && run.events[|run.events| - 1].kind.Finished?
    {
      hide Run.Valid;
      run.Numbered();
      if index < |run.events| {
        var event := run.events[index];
        SliceNext(run.events, after, index);
        index := index + 1;
        received := received + [event];
        return Yielded(event);
      }
      assert run.events[after..index] == run.events[after..] && received + [] == received;
      return if run.status.Terminal() then Ended else Waiting;
    }
  }

  /** A host that steps a run, adds messages and asks for cancellation as it likes, and a subscriber that
      asks for events at any moments in between. The subscriber is never out of step; and when it asks
      until the end it has received what the run logged behind its cursor, the finish event last. */
  method Observe(run: Run, after: int, moves: seq<Move>) returns (opening: Result<Subscription, Error>)
    requires run.Valid() && !run.driving
    modifies run
    ensures run.Valid() && run.status.Terminal() && old(run.events) <= run.events
    ensures opening.Err? <==> after < 0 || after > |old(run.events)|
    ensures opening.Ok? ==> opening.value.received == run.events[after..] && run.events[|run.events| - 1].kind.Finished?
    ensures opening.Ok? ==> forall e :: e in run.events ==> (e.sequence > after <==> e in opening.value.received)
  {
    hide Run.Valid;
    opening := run.Events(after);
    for i := 0 to |moves|
      invariant run.Valid() && !run.driving && old(run.events) <= run.events
      invariant opening.Ok? ==> fresh(opening.value) && opening.value.run == run && opening.value.after == after && opening.value.InStep()
      modifies run, if opening.Ok? then {opening.value} else {}
    {
      MakeMove(run, moves[i], opening);
    }
    var s, n := run.Drive(true);
    if opening.Ok? {
      Drain(opening.value);
      opening.value.Behind();
      assert run.events == run.events[..after] + run.events[after..];
    }
  }

  /** What can happen between two deliveries. */
  datatype Move = Step | Append(content: string) | Cancelling | Deliver

  method MakeMove(run: Run, move: Move, opening: Result<Subscription, Error>)
    requires run.Valid() && !run.driving
    requires opening.Ok? ==> opening.value.run == run && opening.value.InStep()
    modifies run, if opening.Ok? then {opening.value} else {}
    ensures run.Valid() && !run.driving && old(run.events) <= run.events
    ensures opening.Ok? ==> opening.value.InStep()
  {
    hide Run.Valid;
    match move {
      case Step =>
        var s, n := run.Drive(false);
      case Append(content) =>
        var s := run.AppendMessage(content);
      case Cancelling =>
        run.RequestCancel();
      case Deliver =>
        if opening.Ok? {
          var d := opening.value.Next();
        }
    }
  }

  /** Asking until there is nothing more. */
  method Drain(subscription: Subscription)
    requires subscription.InStep() && subscription.run.status.Terminal()
    modifies subscription
    ensures subscription.InStep() && subscription.received == subscription.run.events[subscription.after..]
    ensures subscription.run.events[|subscription.run.events| - 1].kind.Finished?
  {
    hide Run.Valid;
    while true
      invariant subscription.InStep()
      decreases |subscription.run.events| - subscription.index
    {
      var d := subscription.Next();
      if d.Ended? {
        return;
      }
    }
  }

  // ---------------------------------------------------------------- a step ends as its awaits decide

  lemma RefusalMeans(env: Environment, request: seq<ChatMessage>)
    ensures Refusal(env, request).None? <==> Sendable(env, request)
  {
    hide WellPaired, NothingOpenAt;
  }

  lemma AnsweringKeeps(v: Snapshot, n: nat, output: ToolOutput)
    requires v.settled + n <= |v.calls|
    ensures var w := AnsweringAll(v, n, output);
            w == v.(calls := w.calls, settled := w.settled, messages := w.messages)
  {
    if n > 0 {
      AnsweringKeeps(v, n - 1, output);
    }
  }

  /** The step raises what its awaits make it raise. */
  ghost predicate Signals(c: Setting, v: Snapshot, s: Signal) {
    forall e :: Breaks(c, v, e) <==> s == Raised(e)
  }

  /** What a step leaves when it raises nothing, and that a step that raises leaves the run going. */
  ghost predicate Leaves(c: Setting, v: Snapshot, w: Snapshot, s: Signal) {
    && (s.Raised? ==> !w.status.Terminal() && !Loses(c, v))
    && (s.Normal? ==> (w.status.Failed? <==> Loses(c, v)) && (w.status.Cancelled? <==> Interrupted(c, v) && !Loses(c, v)))
    && (w.status.LimitReached? <==> MeetsLimit(c, v))
    && (w.status.Completed? <==> exists content :: Completes(c, v, content))
    && (w.status.Completed? ==> w.output.Some? && Completes(c, v, w.output.value))
    && (!w.status.Completed? ==> w.output.None?)
  }

  lemma EndsTogether(c: Setting, v: Snapshot, w: Snapshot, s: Signal)
    requires Signals(c, v, s) && Leaves(c, v, w, s)
    ensures EndsRightly(c, v, Concluded(w, s), PassedOn(s))
  {
    hide Breaks, Loses, Interrupted, MeetsLimit, Completes;
    if s.Raised? {
      assert Breaks(c, v, s.error);
    }
  }

  /** Every run of every step ends as its awaits give cause for, and in no other way. */
  lemma StepEnds(c: Setting, v: Snapshot)
    requires v.settled <= |v.calls| && !v.status.Terminal() && v.output.None?
    ensures var (w, s) := AfterStep(c, v); EndsRightly(c, v, Concluded(w, s), PassedOn(s))
  {
    hide EndsRightly, Signals, Leaves, AfterStep;
    var (w, s) := AfterStep(c, v);
    if v.cancelRequested {
      CancelEnds(c, v);
    } else if v.Open() {
      ToolSignals(c, v);
      ToolLeaves(c, v);
    } else {
      ModelSignals(c, v);
      ModelLeaves(c, v);
    }
    EndsTogether(c, v, w, s);
  }

  lemma CancelEnds(c: Setting, v: Snapshot)
    requires v.cancelRequested && v.output.None?
    ensures var (w, s) := AfterStep(c, v); Signals(c, v, s) && Leaves(c, v, w, s)
  {}

  lemma ToolSignals(c: Setting, v: Snapshot)
    requires v.Open() && !v.cancelRequested
    ensures Signals(c, v, AfterStep(c, v).1)
  {
    hide AnsweringAll, Answering, Admitted;
  }

  /** The policy ends nothing; a call it lets through has waited for it at most. */
  lemma PolicyEnds(c: Setting, v: Snapshot)
    requires v.Open() && Considers(c, v)
    ensures var (w, s, allowed) := AfterPolicy(c, v);
            && w.status == v.status && w.output == v.output && v.clock <= w.clock <= v.clock + 1
            && w.cancelRequested == (c.hasPolicy && Cancel in c.env.beforeTool(v.clock).host)
            && (allowed <==> Executes(c, v)) && (allowed ==> s.Normal? && w.Open() && !w.cancelRequested && w.clock == v.clock + if c.hasPolicy then 1 else 0)
  {
    hide AnsweringAll, Admitted;
    if c.hasPolicy {
      var decision := c.env.beforeTool(v.clock);
      var w := Waited(c, v, decision.host);
      if decision.outcome.Ok? && (decision.outcome.value.Deny? || decision.outcome.value.Reconsider?) {
        AnsweringGives(w, if decision.outcome.value.Deny? then 1 else |w.calls| - w.settled, ToolOutput(decision.outcome.value.content, true));
      }
    }
  }

  lemma ExecutionEnds(c: Setting, v: Snapshot)
    requires v.Open() && !v.status.Terminal() && v.output.None?
    ensures var (w, s) := AfterExecution(c, v);
            && (if c.env.execute(v.clock).outcome == Err(ToolEffectUnknown) then s.Normal? && w.status.Failed? else w.status == v.status)
            && w.output.None? && w.clock == v.clock + 1
            && w.cancelRequested == (v.cancelRequested || Cancel in c.env.execute(v.clock).host)
  {
    hide Admitted;
  }

  lemma ToolLeaves(c: Setting, v: Snapshot)
    requires v.Open() && !v.cancelRequested && !v.status.Terminal() && v.output.None?
    ensures var (w, s) := AfterStep(c, v); Leaves(c, v, w, s)
  {
    hide AfterPolicy, AfterExecution, Answering;
    if Considers(c, v) {
      PolicyEnds(c, v);
      if Executes(c, v) {
        ExecutionEnds(c, AfterPolicy(c, v).0);
      }
    } else {
      RefusedEnds(c, v);
    }
  }

  lemma RefusedEnds(c: Setting, v: Snapshot)
    requires v.Open() && !v.cancelRequested && !Considers(c, v)
    ensures var (w, s) := AfterTool(c, v);
            && s.Normal? && w.cancelRequested == v.cancelRequested && w.output == (if MeetsLimit(c, v) then None else v.output)
            && w.clock == v.clock && w.status == if MeetsLimit(c, v) then LimitReached else v.status
  {
    hide AfterPolicy, AfterExecution;
  }

  /** An answer is taken exactly if it fits, and completes the run exactly if nothing is left to do. */
  ghost predicate Responded(v: Snapshot, content: string, proposed: seq<ToolCall>, w: Snapshot, s: Signal) {
    var fits := WellPaired(v.messages + [Assistant(content, proposed)]);
    && (if fits then s.Normal? else s == Raised(ValueInvalid))
    && w.cancelRequested == v.cancelRequested
    && (w.status.Completed? <==> fits && proposed == [] && v.queued == [] && !v.cancelRequested)
    && (w.status.Completed? ==> w.output == Some(content)) && (!w.status.Completed? ==> w.status == v.status && w.output.None?)
  }

  lemma ResponseEnds(v: Snapshot, content: string, proposed: seq<ToolCall>, usage: Option<Usage>)
    requires !v.status.Terminal() && v.output.None?
    ensures var (w, s) := AfterResponse(v, content, proposed, usage);
            Responded(v, content, proposed, w, s)
  {
    hide WellPaired, Pair, Fresh;
    PairDecidesWellPaired(v.messages + [Assistant(content, proposed)]);
  }

  /** Where the model was called, what it left. */
  lemma ModelSignals(c: Setting, v: Snapshot)
    requires v.settled == |v.calls| && !v.cancelRequested && !v.status.Terminal() && v.output.None?
    ensures Signals(c, v, AfterStep(c, v).1)
  {
    hide WellPaired, Pair, Fresh, Admitted, Refusal, Sendable, AfterResponse;
    ModelAsks(c, v);
  }

  lemma ModelLeaves(c: Setting, v: Snapshot)
    requires v.settled == |v.calls| && !v.cancelRequested && !v.status.Terminal() && v.output.None?
    ensures var (w, s) := AfterStep(c, v); Leaves(c, v, w, s)
  {
    hide WellPaired, Pair, Fresh, Admitted, Refusal, Sendable, AfterResponse;
    ModelAsks(c, v);
    var answer := c.env.complete(v.clock + 1).outcome;
    if Calls(c, v) && answer.Ok? && answer.value.Response? {
      var (w, s) := AfterStep(c, v);
      assert w.status.Completed? <==> Completes(c, v, answer.value.content);
    }
  }

  /** What a step without an open call amounts to, when it does and when it does not call the model. */
  lemma ModelAsks(c: Setting, v: Snapshot)
    requires v.settled == |v.calls| && !v.cancelRequested && !v.status.Terminal() && v.output.None?
    ensures var assembled := c.env.assemble(v.clock);
            && (assembled.outcome.Ok? ==> (Refusal(c.env, assembled.outcome.value).None? <==> Sendable(c.env, assembled.outcome.value)))
            && var w := Waited(c, v, assembled.host);
               var x := Waited(c, Asking(w, |v.queued|), c.env.complete(w.clock).host);
               && x.messages == v.messages + v.queued && !x.status.Terminal() && x.output.None?
               && x.queued == Admitted(c.env, assembled.host) + Admitted(c.env, c.env.complete(v.clock + 1).host)
               && match c.env.complete(w.clock).outcome
                  case Ok(Response(content, proposed, usage)) =>
                    var (y, s) := AfterResponse(x, content, proposed, usage);
                    Responded(x, content, proposed, y, s)
                  case _ => true
  {
    hide WellPaired, Pair, Fresh, Admitted, Refusal, Sendable, AfterResponse;
    var assembled := c.env.assemble(v.clock);
    if assembled.outcome.Ok? {
      RefusalMeans(c.env, assembled.outcome.value);
    }
    var w := Waited(c, v, assembled.host);
    assert w.queued[..|v.queued|] == v.queued && w.queued[|v.queued|..] == Admitted(c.env, assembled.host);
    var answer := c.env.complete(w.clock);
    var x := Waited(c, Asking(w, |v.queued|), answer.host);
    if answer.outcome.Ok? && answer.outcome.value.Response? {
      ResponseEnds(x, answer.outcome.value.content, answer.outcome.value.calls, answer.outcome.value.usage);
    }
  }

  /** What a step without an open call does besides ending the run: it calls the model exactly if `Calls`,
      then the messages taken are in the history, and an answer that fits follows them, its calls pending. */
  lemma ModelTells(c: Setting, v: Snapshot)
    requires v.settled == |v.calls| && !v.cancelRequested && !v.status.Terminal() && v.output.None?
    ensures var w, answer := AfterStep(c, v).0, c.env.complete(v.clock + 1).outcome;
            && w.settled == v.settled && w.stats.toolCalls == v.stats.toolCalls
            && w.stats.modelCalls == v.stats.modelCalls + (if Calls(c, v) then 1 else 0)
            && (if Calls(c, v) && answer.Ok? && answer.value.Response? && Fitting(v, answer.value) then
                  && w.messages == v.messages + v.queued + [Assistant(answer.value.content, answer.value.calls)]
                  && w.calls == v.calls + Fresh(answer.value.calls) && w.stats.usage == AddedUsage(v.stats.usage, answer.value.usage)
                else
                  && w.messages == v.messages + (if Calls(c, v) then v.queued else [])
                  && w.calls == v.calls && w.stats.usage == v.stats.usage)
  {
    hide WellPaired, Pair, Fresh, Admitted, Refusal, Sendable, AddedUsage;
    ModelAsks(c, v);
    var assembled := c.env.assemble(v.clock);
    var w := Waited(c, v, assembled.host);
    assert w.queued[..|v.queued|] == v.queued;
    assert v.messages + [] == v.messages;
  }

  /** What the first open call gets, if anything: a refusal, the policy's word, or what its execution answered. */
  function Gets(c: Setting, v: Snapshot): Option<ToolOutput>
    requires v.Open()
  {
    var call := v.calls[v.settled].call;
    if v.cancelRequested || v.stats.toolCalls >= c.limits.maxToolCalls then None
    else if call.name !in c.tools then Some(NOT_LISTED)
    else if !c.env.validArguments(call) then Some(NOT_VALID)
    else if Executes(c, v) then
      match Execution(c, v).outcome
      case Ok(Output(output)) => Some(output)
      case Err(ToolExecution) => Some(REPORTED)
      case _ => None
    else
      match c.env.beforeTool(v.clock)
      case Await(host, Ok(Deny(content))) => if Cancel in host then None else Some(ToolOutput(content, true))
      case Await(host, Ok(Reconsider(content))) => if Cancel in host then None else Some(ToolOutput(content, true))
      case _ => None
  }

  /** A reconsideration answers every open call. */
  predicate Reconsiders(c: Setting, v: Snapshot) {
    Consults(c, v) && c.env.beforeTool(v.clock).outcome.Ok? && c.env.beforeTool(v.clock).outcome.value.Reconsider?
  }

  /** What a step with an open call does: it starts the call exactly if `Executes`; the call is answered
      exactly if it gets an output, and then by that one, as are all the others if the policy reconsiders;
      later calls otherwise stay as they are. */
  ghost predicate ToolTold(c: Setting, v: Snapshot, w: Snapshot)
    requires v.Open()
  {
    && w.stats == v.stats.(toolCalls := v.stats.toolCalls + if Executes(c, v) then 1 else 0)
    && |w.calls| == |v.calls| && w.calls[..v.settled] == v.calls[..v.settled]
    && (w.settled > v.settled <==> Gets(c, v).Some?)
    && w.settled == (if Gets(c, v).None? then v.settled else if Reconsiders(c, v) then |v.calls| else v.settled + 1)
    && (forall i :: v.settled <= i < w.settled ==> w.calls[i] == RecordOf(v.calls[i].call, Gets(c, v).value))
    && (forall i :: v.settled < i < |v.calls| && w.settled <= i ==> w.calls[i] == v.calls[i])
    && (Gets(c, v).None? && !Executes(c, v) ==> w.calls == v.calls)
    && |w.messages| == |v.messages| + w.settled - v.settled && w.messages[..|v.messages|] == v.messages
  }

  lemma ToolTells(c: Setting, v: Snapshot)
    requires v.Open() && !v.cancelRequested && !v.status.Terminal() && v.output.None?
    ensures ToolTold(c, v, AfterStep(c, v).0)
  {
    hide ToolTold, AfterPolicy, AfterExecution, Gets;
    if !Considers(c, v) {
      RefusedTells(c, v);
    } else {
      PolicyTells(c, v);
      if AfterPolicy(c, v).2 {
        ExecutionTells(c, v);
      }
    }
    var w := AfterTool(c, v).0;
    ToldEnds(c, v, w);
  }

  lemma ToldEnds(c: Setting, v: Snapshot, w: Snapshot)
    requires v.Open() && ToolTold(c, v, w)
    ensures ToolTold(c, v, Ending(w, Cancelled, None))
  {
    hide Gets, Reconsiders, Executes;
  }

  lemma RefusedTells(c: Setting, v: Snapshot)
    requires v.Open() && !v.cancelRequested && !Considers(c, v)
    ensures ToolTold(c, v, AfterTool(c, v).0)
  {
  }

  lemma PolicyTells(c: Setting, v: Snapshot)
    requires v.Open() && Considers(c, v)
    ensures AfterPolicy(c, v).2 <==> Executes(c, v)
    ensures !AfterPolicy(c, v).2 ==> ToolTold(c, v, AfterPolicy(c, v).0)
    ensures AfterPolicy(c, v).2 ==>
              AfterPolicy(c, v).0 == if c.hasPolicy then Waited(c, v, c.env.beforeTool(v.clock).host) else v
  {
    hide AnsweringAll, Admitted;
    if c.hasPolicy {
      var decision := c.env.beforeTool(v.clock);
      var w := Waited(c, v, decision.host);
      if decision.outcome.Ok? && (decision.outcome.value.Deny? || decision.outcome.value.Reconsider?) {
        AnsweringGives(w, if decision.outcome.value.Deny? then 1 else |w.calls| - w.settled, ToolOutput(decision.outcome.value.content, true));
      }
    }
  }

  lemma ExecutionTells(c: Setting, v: Snapshot)
    requires v.Open() && Executes(c, v) && AfterPolicy(c, v).2
    requires AfterPolicy(c, v).0 == if c.hasPolicy then Waited(c, v, c.env.beforeTool(v.clock).host) else v
    ensures ToolTold(c, v, AfterExecution(c, AfterPolicy(c, v).0).0)
  {
    hide AfterPolicy, Admitted;
  }

  lemma DriveEndsBy(c: Setting, start: Snapshot, n: nat, w: Snapshot, s: Signal)
    requires n > 0
    requires var last := StepsOn(c, start, n - 1);
             && (w, s) == AfterStep(c, last)
             && last.settled <= |last.calls| && !last.status.Terminal() && last.output.None? && start.clock <= last.clock
    ensures DriveEnds(c, start, n, Concluded(w, s), PassedOn(s))
  {
    hide AfterStep, EndsRightly, Concluded, PassedOn, StepsOn;
    var last := StepsOn(c, start, n - 1);
    StepEnds(c, last);
    StepClock(c, last);
  }

  /** A step passes at most two awaits. */
  lemma StepClock(c: Setting, v: Snapshot)
    requires v.settled <= |v.calls| && !v.status.Terminal() && v.output.None?
    ensures v.clock <= AfterStep(c, v).0.clock <= v.clock + 2
    ensures Concluded(AfterStep(c, v).0, AfterStep(c, v).1).clock == AfterStep(c, v).0.clock
  {
    hide Marked, Refusal, Admitted, AfterResponse, AfterPolicy, AfterExecution, Answering;
    MarkedClock(AfterStep(c, v).0);
    MarkedClock(AfterStep(c, v).0.(cancelRequested := true));
    if v.Open() && !v.cancelRequested {
      if Considers(c, v) {
        PolicyEnds(c, v);
        if Executes(c, v) {
          ExecutionEnds(c, AfterPolicy(c, v).0);
        }
      } else {
        RefusedEnds(c, v);
      }
    } else if !v.cancelRequested {
      ModelClock(c, v);
    }
  }

  lemma MarkedClock(v: Snapshot)
    ensures Marked(v).clock == v.clock
  {}

  lemma ModelClock(c: Setting, v: Snapshot)
    ensures v.clock <= AfterModel(c, v).0.clock <= v.clock + 2
  {
    hide Refusal, Pair, Admitted, Fresh;
  }

  lemma AnsweringGives(v: Snapshot, n: nat, output: ToolOutput)
    requires v.settled + n <= |v.calls|
    ensures var w := AnsweringAll(v, n, output);
            && w == v.(calls := w.calls, settled := v.settled + n, messages := w.messages)
            && |w.calls| == |v.calls| && w.calls[..v.settled] == v.calls[..v.settled] && w.calls[v.settled + n..] == v.calls[v.settled + n..]
            && (forall i :: v.settled <= i < v.settled + n ==> w.calls[i] == RecordOf(v.calls[i].call, output))
            && |w.messages| == |v.messages| + n && w.messages[..|v.messages|] == v.messages
  {
    if n > 0 {
      AnsweringGives(v, n - 1, output);
    }
  }

  // ---------------------------------------------------------------- facts about the call table

  function PendingOf(calls: seq<CallRecord>): seq<ToolCall> {
    if calls == [] then []
    else (if calls[0].status.Pending? then [calls[0].call] else []) + PendingOf(calls[1..])
  }

  /** In a table whose first `settled` calls are answered and whose other calls are all pending,
      the pending calls are the rest of the table in order. */
  lemma {:induction false} PendingSuffix(calls: seq<CallRecord>, settled: nat)
    requires settled <= |calls|
    requires forall i :: 0 <= i < settled ==> !calls[i].status.Pending?
    requires forall i :: settled <= i < |calls| ==> calls[i].status.Pending?
    ensures PendingOf(calls) == CallsOf(calls[settled..])
  {
    if calls == [] {
    } else if settled == 0 {
      assert calls[1..][0..] == calls[1..];
      PendingSuffix(calls[1..], 0);
      assert CallsOf(calls[0..]) == [calls[0].call] + CallsOf(calls[1..]);
    } else {
      PendingSuffix(calls[1..], settled - 1);
      assert calls[1..][settled - 1..] == calls[settled..];
    }
  }

  lemma StartPaired(history: seq<ChatMessage>, message: string)
    requires WellPaired(history) && NothingOpenAt(history, |history|)
    ensures var messages := history + [Input(message)];
            Paired(messages, messages, [], 0) && Delivered(messages, messages, [], [])
  {
    hide WellPaired, Pair, Accept, NothingOpenAt, Proposals, Results, Inputs;
    NothingPending(history);
    PairAppend(history, Input(message));
    AcceptInput(Pair(history).value, Input(message));
    var messages := history + [Input(message)];
    NoCallsYet();
    assert Proposals(messages) + [] == Proposals(messages) && Results(messages) + [] == Results(messages);
    assert Inputs(messages) + [] == Inputs(messages);
  }

  lemma NoCallsYet()
    ensures RecordIds([]) == {} && CallsOf([]) == [] && ResultsOf([]) == []
  {}

  lemma NothingPending(history: seq<ChatMessage>)
    requires WellPaired(history) && NothingOpenAt(history, |history|)
    ensures Pair(history).Some? && Pair(history).value.pending == {}
  {
    hide WellPaired, Pair;
    PairDecidesWellPaired(history);
    assert PairingIs(history, Pair(history).value);
  }

  lemma StartLogged(e: RunEvent)
    requires e == RunEvent(1, Created, Ready, None)
    ensures LogOk([e], [], Ready, false, RunStats(0, 0, None))
  {
    hide Logged, Traced;
    assert Logged([e], Ready, false) by {
      FirstLogged(e);
    }
    FirstTraced(e);
    assert [e][..0] == [] && CountOf([], ModelStarted) == 0 && CountOf([], ToolStarted) == 0;
  }

  lemma FirstLogged(e: RunEvent)
    requires e == RunEvent(1, Created, Ready, None)
    ensures Logged([e], Ready, false)
  {}

  lemma FirstTraced(e: RunEvent)
    requires e == RunEvent(1, Created, Ready, None)
    ensures Traced([e], [])
  {
    forall id ensures Trace([e], id) == [] {
      assert [e][..0] == [];
    }
  }

  lemma NewId(before: seq<CallRecord>, proposed: seq<ToolCall>, i: nat)
    requires i < |proposed| && Distinct(proposed) && RecordIds(before) !! Ids(proposed)
    ensures proposed[i].callId !in RecordIds(before + Fresh(proposed[..i]))
  {
    var id := proposed[i].callId;
    assert proposed[i] in proposed;
    assert id in Ids(proposed);
    FreshIds(proposed[..i]);
    assert id !in Ids(proposed[..i]);
    assert RecordIds(before + Fresh(proposed[..i])) == RecordIds(before) + RecordIds(Fresh(proposed[..i]));
  }
}
