/** Assembling a prompt within a character budget (src/aurora_bot/prompt/composer.py). */
module Composer {
  import opened Common
  import opened Selection

  datatype Role = System | User | Assistant | Tool

  /** A tool call and the number of characters its identity, name and arguments take. */
  datatype Call = Call(callId: Id, size: nat)

  datatype ChatMessage = ChatMessage(role: Role, content: string, calls: seq<Call>, answers: Id)

  /** Recent commits of one scope. */
  datatype Scope = Scope(name: string, head: nat, commits: seq<Record>)

  /** `required` and `bundles` or `scopes` come rendered by functions of the commits they show. */
  datatype Memory = Memory(
    required: seq<Record>,
    bundles: Option<seq<Bundle>>,
    scopes: seq<Scope>,
    renderBundles: seq<Record> -> string,
    renderScopes: seq<Scope> -> string)

  datatype Error = BudgetExceeded | EmptyTranscript

  /** Stands for the notice that part of the conversation is not loaded; only its length matters here. */
  const TAG := "[...]"
  const BREAK := "\n\n"

  // ---------------------------------------------------------------- sizes

  function CallsSize(calls: seq<Call>): nat {
    if calls == [] then 0 else CallsSize(calls[..|calls| - 1]) + calls[|calls| - 1].size
  }

  function MessageSize(m: ChatMessage): nat {
    |m.content| + CallsSize(m.calls)
  }

  function TotalOf(messages: seq<ChatMessage>): nat {
    if messages == [] then 0 else TotalOf(messages[..|messages| - 1]) + MessageSize(messages[|messages| - 1])
  }

  /** A message weighs its text and each of its calls. */
  lemma OneMoreCall(m: ChatMessage, call: Call)
    ensures MessageSize(m.(calls := [])) == |m.content|
    ensures MessageSize(m.(calls := m.calls + [call])) == MessageSize(m) + call.size
  {
    assert (m.calls + [call])[..|m.calls|] == m.calls;
  }

  lemma {:induction false} TotalAppend(a: seq<ChatMessage>, b: seq<ChatMessage>)
    ensures TotalOf(a + b) == TotalOf(a) + TotalOf(b)
  {
    if b == [] {
      assert a + b == a;
    } else {
      var m := |b| - 1;
      assert (a + b)[..|a + b| - 1] == a + b[..m];
      TotalAppend(a, b[..m]);
    }
  }

  function Join(fragments: seq<string>): string {
    if fragments == [] then ""
    else if |fragments| == 1 then fragments[0]
    else Join(fragments[..|fragments| - 1]) + BREAK + fragments[|fragments| - 1]
  }

  lemma JoinOneMore(fragments: seq<string>, fragment: string)
    ensures |Join(fragments + [fragment])| == |Join(fragments)| + |fragment| + if fragments == [] then 0 else |BREAK|
  {
    assert (fragments + [fragment])[..|fragments|] == fragments;
  }

  // ---------------------------------------------------------------- groups of the transcript

  ghost predicate Makes(m: ChatMessage, callId: Id) {
    exists i :: 0 <= i < |m.calls| && m.calls[i].callId == callId
  }

  ghost predicate Answers(m: ChatMessage, callId: Id) {
    m.role.Tool? && m.answers == callId
  }

  /** Some message among the first n makes the call, and no result from there on answers it. */
  ghost predicate Waits(messages: seq<ChatMessage>, n: nat, callId: Id)
    requires n <= |messages|
  {
    exists j :: 0 <= j < n && Makes(messages[j], callId) && forall k :: j <= k < n ==> !Answers(messages[k], callId)
  }

  /** Every call the first n messages make is answered by one of them. */
  ghost predicate Settled(messages: seq<ChatMessage>, n: nat)
    requires n <= |messages|
  {
    forall callId :: !Waits(messages, n, callId)
  }

  function CallIds(calls: seq<Call>): set<Id> {
    set i | 0 <= i < |calls| :: calls[i].callId
  }

  /** The calls still open after a message. */
  function OpenAfter(open: set<Id>, m: ChatMessage): set<Id> {
    var called := open + CallIds(m.calls);
    if m.role.Tool? then called - {m.answers} else called
  }

  function Open(messages: seq<ChatMessage>): set<Id> {
    if messages == [] then {} else OpenAfter(Open(messages[..|messages| - 1]), messages[|messages| - 1])
  }

  function Flat(groups: seq<seq<ChatMessage>>): seq<ChatMessage> {
    if groups == [] then [] else Flat(groups[..|groups| - 1]) + groups[|groups| - 1]
  }

  /** Where the k-th group begins. */
  function Start(groups: seq<seq<ChatMessage>>, k: nat): nat
    requires k <= |groups|
  {
    |Flat(groups[..k])|
  }

  /** A group other than the first begins at the n-th message. */
  ghost predicate IsStart(groups: seq<seq<ChatMessage>>, n: nat) {
    exists k :: 0 < k < |groups| && Start(groups, k) == n
  }

  /** The transcript cut exactly where every call made so far is answered. */
  ghost predicate Grouped(messages: seq<ChatMessage>, groups: seq<seq<ChatMessage>>) {
    && Flat(groups) == messages
    && (forall k :: 0 <= k < |groups| ==> groups[k] != [])
    && (forall n :: 0 < n < |messages| ==> (IsStart(groups, n) <==> Settled(messages, n)))
  }

  /** A group ends at the first message after which all its calls are answered; only the last may end before that. */
  ghost predicate EndsSettled(groups: seq<seq<ChatMessage>>) {
    forall k :: 0 <= k < |groups| ==>
      && (forall n :: 0 < n < |groups[k]| ==> !Settled(groups[k], n))
      && (k < |groups| - 1 ==> Settled(groups[k], |groups[k]|))
  }

  lemma {:induction false} FlatAppend(groups: seq<seq<ChatMessage>>, group: seq<ChatMessage>)
    ensures Flat(groups + [group]) == Flat(groups) + group
  {
    assert (groups + [group])[..|groups|] == groups;
  }

  lemma {:induction false} FlatSplit(groups: seq<seq<ChatMessage>>, k: nat)
    requires k <= |groups|
    ensures Flat(groups) == Flat(groups[..k]) + Flat(groups[k..])
    decreases |groups|
  {
    if k == |groups| {
      assert groups[..k] == groups && groups[k..] == [];
    } else {
      var m := |groups| - 1;
      FlatSplit(groups[..m], k);
      assert groups[..m][..k] == groups[..k];
      assert groups[k..][..m - k] == groups[..m][k..];
      assert groups[k..][m - k] == groups[m];
    }
  }

  /** `_transcript_groups`. */
  method TranscriptGroups(messages: seq<ChatMessage>) returns (groups: seq<seq<ChatMessage>>)
    ensures Grouped(messages, groups) && EndsSettled(groups) && (messages != [] <==> groups != [])
  {
    hide Grouped, Cut, Open, Flat, EndsSettled;
    groups := [];
    var current: seq<ChatMessage> := [];
    var pending: set<Id> := {};
    NoGroups(messages);
    for i := 0 to |messages|
      invariant pending == Open(messages[..i]) && Cut(messages, groups, i - |current|) && |current| <= i
      invariant current == messages[i - |current|..i]
      invariant forall n :: i - |current| < n <= i ==> Open(messages[..n]) != {}
      invariant i > 0 <==> groups != [] || current != []
    {
      var message := messages[i];
      ghost var from := i - |current|;
      OpenNext(messages, i);
      current := current + [message];
      pending := pending + CallIds(message.calls);
      if message.role.Tool? {
        pending := pending - {message.answers};
      }
      assert messages[from..i + 1] == messages[from..i] + [message];
      if pending == {} {
        CutNext(messages, groups, from, i + 1);
        groups := groups + [current];
        current := [];
      }
    }
    if current != [] {
      ghost var from := |messages| - |current|;
      CutLast(messages, groups, from);
      assert current == messages[from..];
      groups := groups + [current];
    } else {
      CutAll(messages, groups);
    }
    GroupsSettled(messages, groups);
  }

  lemma WaitsNext(messages: seq<ChatMessage>, n: nat, callId: Id)
    requires n < |messages|
    ensures Waits(messages, n + 1, callId) <==>
              (Waits(messages, n, callId) || Makes(messages[n], callId)) && !Answers(messages[n], callId)
  {
    hide Makes, Answers;
    if j :| 0 <= j < n && Makes(messages[j], callId) && forall k :: j <= k < n ==> !Answers(messages[k], callId) {
      assert !Answers(messages[n], callId) ==> forall k :: j <= k < n + 1 ==> !Answers(messages[k], callId);
    }
  }

  /** The set of open calls is the set of those that wait. */
  lemma {:induction false} OpenIsWaiting(messages: seq<ChatMessage>, n: nat)
    requires n <= |messages|
    ensures forall callId :: callId in Open(messages[..n]) <==> Waits(messages, n, callId)
  {
    if n > 0 {
      hide Open, Waits;
      OpenIsWaiting(messages, n - 1);
      OpenNext(messages, n - 1);
      forall callId ensures callId in Open(messages[..n]) <==> Waits(messages, n, callId) {
        WaitsNext(messages, n - 1, callId);
        assert callId in CallIds(messages[n - 1].calls) <==> Makes(messages[n - 1], callId);
      }
    }
  }

  lemma SettledIsClosed(messages: seq<ChatMessage>, n: nat)
    requires n <= |messages|
    ensures Settled(messages, n) <==> Open(messages[..n]) == {}
  {
    hide Waits, Open;
    OpenIsWaiting(messages, n);
  }

  lemma OpenNext(messages: seq<ChatMessage>, n: nat)
    requires n < |messages|
    ensures Open(messages[..n + 1]) == OpenAfter(Open(messages[..n]), messages[n])
  {
    assert messages[..n + 1][..n] == messages[..n];
  }

  /** The first n messages are cut into groups, and no call is open after them. */
  ghost predicate Cut(messages: seq<ChatMessage>, groups: seq<seq<ChatMessage>>, n: int) {
    && 0 <= n <= |messages| && Flat(groups) == messages[..n] && Open(messages[..n]) == {}
    && (forall k :: 0 <= k < |groups| ==> groups[k] != [])
    && (forall m :: 0 < m < n ==> (IsStart(groups, m) <==> Open(messages[..m]) == {}))
  }

  lemma NoGroups(messages: seq<ChatMessage>)
    ensures Cut(messages, [], 0) && Open(messages[..0]) == {}
  {
    assert messages[..0] == [];
  }

  lemma StartKept(groups: seq<seq<ChatMessage>>, group: seq<ChatMessage>, k: nat)
    requires k <= |groups|
    ensures Start(groups + [group], k) == Start(groups, k) <= |Flat(groups)|
  {
    assert (groups + [group])[..k] == groups[..k];
    FlatSplit(groups, k);
  }

  lemma StartAll(groups: seq<seq<ChatMessage>>)
    ensures Start(groups, |groups|) == |Flat(groups)|
  {
    assert groups[..|groups|] == groups;
  }

  lemma {:induction false} StartBefore(groups: seq<seq<ChatMessage>>, k: nat)
    requires k < |groups| && forall i :: 0 <= i < |groups| ==> groups[i] != []
    ensures Start(groups, k) < |Flat(groups)|
  {
    FlatSplit(groups, k);
    FlatSplit(groups, k + 1);
    FlatAppend(groups[..k], groups[k]);
    assert groups[..k + 1] == groups[..k] + [groups[k]];
  }

  /** One more group adds one start: where it begins. */
  lemma StartsOneMore(groups: seq<seq<ChatMessage>>, group: seq<ChatMessage>, n: nat)
    requires n > 0 && forall i :: 0 <= i < |groups| ==> groups[i] != []
    ensures IsStart(groups + [group], n) <==> IsStart(groups, n) || n == |Flat(groups)|
    ensures IsStart(groups, n) ==> n < |Flat(groups)|
  {
    hide Start;
    var longer := groups + [group];
    StartAll(groups);
    if k :| 0 < k < |longer| && Start(longer, k) == n {
      StartKept(groups, group, k);
      if k < |groups| {
        assert IsStart(groups, n);
      }
    }
    if k :| 0 < k < |groups| && Start(groups, k) == n {
      StartKept(groups, group, k);
      StartBefore(groups, k);
      assert Start(longer, k) == n;
    }
    if n == |Flat(groups)| {
      assert groups != [];
      StartKept(groups, group, |groups|);
      assert Start(longer, |groups|) == n;
    }
  }

  lemma CutNext(messages: seq<ChatMessage>, groups: seq<seq<ChatMessage>>, from: nat, to: nat)
    requires Cut(messages, groups, from) && from < to <= |messages| && Open(messages[..to]) == {}
    requires forall n :: from < n < to ==> Open(messages[..n]) != {}
    ensures Cut(messages, groups + [messages[from..to]], to)
  {
    hide IsStart, Open;
    FlatAppend(groups, messages[from..to]);
    forall m | 0 < m < to ensures IsStart(groups + [messages[from..to]], m) <==> Open(messages[..m]) == {} {
      StartsOneMore(groups, messages[from..to], m);
    }
  }

  lemma CutAll(messages: seq<ChatMessage>, groups: seq<seq<ChatMessage>>)
    requires Cut(messages, groups, |messages|)
    ensures Grouped(messages, groups)
  {
    hide IsStart, Open, Settled;
    assert messages[..|messages|] == messages;
    forall n | 0 < n < |messages| ensures IsStart(groups, n) <==> Settled(messages, n) {
      SettledIsClosed(messages, n);
    }
  }

  lemma CutLast(messages: seq<ChatMessage>, groups: seq<seq<ChatMessage>>, from: nat)
    requires Cut(messages, groups, from) && from < |messages|
    requires forall n :: from < n <= |messages| ==> Open(messages[..n]) != {}
    ensures Grouped(messages, groups + [messages[from..]])
  {
    hide IsStart, Open, Settled;
    FlatAppend(groups, messages[from..]);
    forall m | 0 < m < |messages| ensures IsStart(groups + [messages[from..]], m) <==> Settled(messages, m) {
      StartsOneMore(groups, messages[from..], m);
      SettledIsClosed(messages, m);
    }
  }

  /** A result that answers a waiting call stands in the group of that call. */
  lemma AnswerWithItsCall(messages: seq<ChatMessage>, groups: seq<seq<ChatMessage>>, answer: nat) returns (call: nat)
    requires Grouped(messages, groups) && answer < |messages| && messages[answer].role.Tool?
    requires Waits(messages, answer, messages[answer].answers)
    ensures call < answer && Makes(messages[call], messages[answer].answers)
    ensures forall n :: call < n <= answer ==> !IsStart(groups, n)
  {
    hide IsStart, Makes, Answers, Flat;
    var id := messages[answer].answers;
    call :| 0 <= call < answer && Makes(messages[call], id) && forall k :: call <= k < answer ==> !Answers(messages[k], id);
    forall n | call < n <= answer ensures !IsStart(groups, n) {
      assert Waits(messages, n, id);
    }
  }

  /** What waits in a part of the transcript waits in the whole; from a settled place on, the converse holds. */
  lemma WaitsWithin(messages: seq<ChatMessage>, from: nat, to: nat, n: nat, callId: Id)
    requires from <= to <= |messages| && n <= to - from
    ensures Waits(messages[from..to], n, callId) ==> Waits(messages, from + n, callId)
    ensures Settled(messages, from) && Waits(messages, from + n, callId) ==> Waits(messages[from..to], n, callId)
  {
    hide Makes, Answers;
    var part := messages[from..to];
    if Waits(part, n, callId) {
      var j :| 0 <= j < n && Makes(part[j], callId) && forall k :: j <= k < n ==> !Answers(part[k], callId);
      forall k | from + j <= k < from + n ensures !Answers(messages[k], callId) {
        assert messages[k] == part[k - from];
      }
      assert Makes(messages[from + j], callId);
    }
    if Settled(messages, from) && Waits(messages, from + n, callId) {
      var j :| 0 <= j < from + n && Makes(messages[j], callId) && forall k :: j <= k < from + n ==> !Answers(messages[k], callId);
      assert j < from ==> Waits(messages, from, callId);
      assert part[j - from] == messages[j];
    }
  }

  lemma SettledWithin(messages: seq<ChatMessage>, from: nat, to: nat, n: nat)
    requires from <= to <= |messages| && n <= to - from && Settled(messages, from)
    ensures Settled(messages[from..to], n) <==> Settled(messages, from + n)
  {
    hide Waits;
    var part, m := messages[from..to], from + n;
    forall callId ensures Waits(part, n, callId) <==> Waits(messages, m, callId) {
      WaitsWithin(messages, from, to, n, callId);
    }
  }

  /** The group at k is the stretch of the transcript from its start to the next. */
  lemma GroupAt(messages: seq<ChatMessage>, groups: seq<seq<ChatMessage>>, k: nat)
    requires Flat(groups) == messages && k < |groups|
    ensures Start(groups, k) + |groups[k]| == Start(groups, k + 1) <= |messages|
    ensures groups[k] == messages[Start(groups, k)..Start(groups, k + 1)]
  {
    FlatSplit(groups, k);
    FlatSplit(groups, k + 1);
    FlatAppend(groups[..k], groups[k]);
    assert groups[..k + 1] == groups[..k] + [groups[k]];
  }

  lemma NoStartWithin(groups: seq<seq<ChatMessage>>, k: nat, n: nat)
    requires k < |groups| && Start(groups, k) < n < Start(groups, k + 1)
    ensures !IsStart(groups, n)
  {
    hide Start;
    if j :| 0 < j < |groups| && Start(groups, j) == n {
      if j <= k { StartsRise(groups, j, k); } else { StartsRise(groups, k + 1, j); }
    }
  }

  lemma {:induction false} StartsRise(groups: seq<seq<ChatMessage>>, i: nat, j: nat)
    requires i <= j <= |groups|
    ensures Start(groups, i) <= Start(groups, j)
  {
    FlatSplit(groups[..j], i);
    assert groups[..j][..i] == groups[..i];
  }

  lemma GroupsSettled(messages: seq<ChatMessage>, groups: seq<seq<ChatMessage>>)
    requires Grouped(messages, groups)
    ensures EndsSettled(groups)
  {
    hide Settled, Flat, Start;
    forall k | 0 <= k < |groups|
      ensures forall n :: 0 < n < |groups[k]| ==> !Settled(groups[k], n)
      ensures k < |groups| - 1 ==> Settled(groups[k], |groups[k]|)
    {
      GroupSettled(messages, groups, k);
    }
  }

  lemma GroupSettled(messages: seq<ChatMessage>, groups: seq<seq<ChatMessage>>, k: nat)
    requires Grouped(messages, groups) && k < |groups|
    ensures forall n :: 0 < n < |groups[k]| ==> !Settled(groups[k], n)
    ensures k < |groups| - 1 ==> Settled(groups[k], |groups[k]|)
  {
    hide Settled, Flat, Start, IsStart;
    GroupAt(messages, groups, k);
    var from, to := Start(groups, k), Start(groups, k + 1);
    StartSettled(messages, groups, k);
    forall n | 0 < n < |groups[k]| ensures !Settled(groups[k], n) {
      NoStartWithin(groups, k, from + n);
      SettledWithin(messages, from, to, n);
    }
    if k < |groups| - 1 {
      StartSettled(messages, groups, k + 1);
      SettledWithin(messages, from, to, to - from);
    }
  }

  lemma StartSettled(messages: seq<ChatMessage>, groups: seq<seq<ChatMessage>>, k: nat)
    requires Grouped(messages, groups) && k < |groups|
    ensures Start(groups, k) <= |messages| && Settled(messages, Start(groups, k))
  {
    hide Waits, Flat;
    GroupAt(messages, groups, k);
    if k == 0 {
      FirstStart(groups);
      assert forall callId :: !Waits(messages, 0, callId) by { NothingWaits(messages); }
    } else {
      GroupAt(messages, groups, k - 1);
      StartsRise(groups, 0, k - 1);
      FirstStart(groups);
      assert IsStart(groups, Start(groups, k));
    }
  }

  lemma NothingWaits(messages: seq<ChatMessage>)
    ensures forall callId :: !Waits(messages, 0, callId)
  {}

  lemma FirstStart(groups: seq<seq<ChatMessage>>)
    ensures Start(groups, 0) == 0
  {}

  // ---------------------------------------------------------------- memories that fit

  /** What one bundle adds to the commits loaded so far: all that is new in it, if that fits. */
  function More(render: seq<Record> -> string, required: set<Id>, commits: seq<Record>, bundle: Bundle, available: nat): seq<Record> {
    var more := Without(bundle.commits, required + Ids(commits));
    if more != [] && |render(commits + more)| + |BREAK| <= available then more else []
  }

  /** The commits loaded, bundle after bundle. */
  function Loaded(render: seq<Record> -> string, required: set<Id>, bundles: seq<Bundle>, available: nat): seq<Record> {
    if bundles == [] then []
    else
      var commits := Loaded(render, required, bundles[..|bundles| - 1], available);
      commits + More(render, required, commits, bundles[|bundles| - 1], available)
  }

  /** The bundles that were taken in. */
  ghost function Accepted(render: seq<Record> -> string, required: set<Id>, bundles: seq<Bundle>, available: nat): seq<Bundle> {
    if bundles == [] then []
    else
      var front, last := bundles[..|bundles| - 1], bundles[|bundles| - 1];
      Accepted(render, required, front, available)
      + if More(render, required, Loaded(render, required, front, available), last, available) != [] then [last] else []
  }

  lemma MoreIds(render: seq<Record> -> string, required: set<Id>, commits: seq<Record>, bundle: Bundle, available: nat)
    ensures var more := More(render, required, commits, bundle, available);
            more != [] ==> Ids(more) == Ids(bundle.commits) - (required + Ids(commits))
  {
    hide Ids, Without;
    WithoutIds(bundle.commits, required + Ids(commits));
  }

  lemma IdsAppend(a: seq<Record>, b: seq<Record>)
    ensures Ids(a + b) == Ids(a) + Ids(b)
  {
    forall id ensures id in Ids(a + b) <==> id in Ids(a) + Ids(b) {
      if id in Ids(a) {
        var k :| 0 <= k < |a| && a[k].id == id;
        assert (a + b)[k].id == id;
      }
      if id in Ids(b) {
        var k :| 0 <= k < |b| && b[k].id == id;
        assert (a + b)[|a| + k].id == id;
      }
    }
  }

  lemma WithoutIds(commits: seq<Record>, ids: set<Id>)
    ensures Ids(Without(commits, ids)) == Ids(commits) - ids
  {
    hide Without;
    var kept := Without(commits, ids);
    forall id ensures id in Ids(kept) <==> id in Ids(commits) - ids {
      if id in Ids(kept) {
        var k :| 0 <= k < |kept| && kept[k].id == id;
        assert kept[k] in commits;
      }
      if id in Ids(commits) - ids {
        var k :| 0 <= k < |commits| && commits[k].id == id;
        assert commits[k] in kept;
      }
    }
  }

  /** What is loaded, with the required evidence, is exactly the accepted bundles with it. */
  lemma {:induction false} LoadedAccepted(render: seq<Record> -> string, required: set<Id>, bundles: seq<Bundle>, available: nat)
    ensures required + Ids(Loaded(render, required, bundles, available)) == required + BundleIds(Accepted(render, required, bundles, available))
    ensures forall b :: b in Accepted(render, required, bundles, available) ==> b in bundles
    ensures required !! Ids(Loaded(render, required, bundles, available))
  {
    hide Ids, More;
    if bundles == [] {
      NoIds();
    } else {
      var front, last := bundles[..|bundles| - 1], bundles[|bundles| - 1];
      LoadedAccepted(render, required, front, available);
      var commits := Loaded(render, required, front, available);
      var more := More(render, required, commits, last, available);
      IdsAppend(commits, more);
      NoIds();
      MoreIds(render, required, commits, last, available);
      var accepted := Accepted(render, required, front, available);
      assert (accepted + [last])[..|accepted|] == accepted && accepted + [] == accepted;
    }
  }

  /** A bundle that is not shown whole brought something new that did not fit behind what was loaded before it. */
  lemma LeftOutDoesNotFit(render: seq<Record> -> string, required: set<Id>, bundles: seq<Bundle>, available: nat, i: nat)
    returns (before: seq<Record>, more: seq<Record>)
    requires i < |bundles| && !(Ids(bundles[i].commits) <= required + Ids(Loaded(render, required, bundles, available)))
    ensures before <= Loaded(render, required, bundles, available)
    ensures forall r :: r in more <==> r in bundles[i].commits && r.id !in required + Ids(before)
    ensures more != [] && |render(before + more)| + |BREAK| > available
  {
    hide Ids, Without;
    before := Loaded(render, required, bundles[..i], available);
    more := Without(bundles[i].commits, required + Ids(before));
    var next := Loaded(render, required, bundles[..i + 1], available);
    assert bundles[..i + 1][..i] == bundles[..i];
    assert next == before + More(render, required, before, bundles[i], available);
    LoadedGrows(render, required, bundles, i, available);
    LoadedGrows(render, required, bundles, i + 1, available);
    WithoutIds(bundles[i].commits, required + Ids(before));
    IdsPrefix(before, Loaded(render, required, bundles, available));
    IdsPrefix(next, Loaded(render, required, bundles, available));
    NoIds();
    IdsAppend(before, more);
  }

  lemma {:induction false} LoadedGrows(render: seq<Record> -> string, required: set<Id>, bundles: seq<Bundle>, n: nat, available: nat)
    requires n <= |bundles|
    ensures Loaded(render, required, bundles[..n], available) <= Loaded(render, required, bundles, available)
  {
    if n == |bundles| {
      assert bundles[..n] == bundles;
    } else {
      hide More;
      LoadedGrows(render, required, bundles[..|bundles| - 1], n, available);
      assert bundles[..|bundles| - 1][..n] == bundles[..n];
    }
  }

  lemma IdsPrefix(a: seq<Record>, b: seq<Record>)
    requires a <= b
    ensures Ids(a) <= Ids(b)
  {
    forall id | id in Ids(a) ensures id in Ids(b) {
      var i :| 0 <= i < |a| && a[i].id == id;
      assert b[i].id == id;
    }
  }

  lemma NoIds()
    ensures Ids([]) == {}
  {}

  /** Whatever fits: what a prompt includes of a selection is closed under every link, up to what the
      required evidence already lacks. */
  lemma IncludedClosed(web: Web, requiredRefs: set<Id>, required: set<Id>, bundles: seq<Bundle>, render: seq<Record> -> string, available: nat)
    requires Keyed(web.records) && required == set id | id in Reach(web, requiredRefs) && id in web.records
    requires forall i :: 0 <= i < |bundles| ==> Completes(web, required, bundles[i])
    ensures var ids := required + Ids(Loaded(render, required, bundles, available));
            forall id, n :: id in ids && n in Next(web, id) ==> n in ids || (n in Reach(web, requiredRefs) && n !in web.records)
  {
    hide Reach, Next, Completes, Loaded, Accepted, Ids;
    LoadedAccepted(render, required, bundles, available);
    var accepted := Accepted(render, required, bundles, available);
    forall i | 0 <= i < |accepted| ensures Completes(web, required, accepted[i]) {
      assert accepted[i] in bundles;
    }
    BundlesClosed(web, requiredRefs, required, accepted, required + BundleIds(accepted));
  }

  /** `_select_bundles`. */
  method SelectBundles(required: set<Id>, bundles: seq<Bundle>, render: seq<Record> -> string, available: nat)
    returns (fragment: string, commits: seq<Record>)
    ensures commits == Loaded(render, required, bundles, available)
    ensures fragment == if commits == [] then "" else render(commits)
    ensures fragment != "" ==> |fragment| + |BREAK| <= available
  {
    hide Loaded, Ids, Without;
    var included := required;
    commits := [];
    fragment := "";
    NoIds();
    LoadedFirst(render, required, bundles, available);
    for i := 0 to |bundles|
      invariant commits == Loaded(render, required, bundles[..i], available) && included == required + Ids(commits)
      invariant fragment == if commits == [] then "" else render(commits)
      invariant fragment != "" ==> |fragment| + |BREAK| <= available
    {
      LoadedNext(render, required, bundles, available, i);
      assert commits + [] == commits;
      var more := Without(bundles[i].commits, included);
      if more == [] {
        continue;
      }
      var candidate := render(commits + more);
      if |candidate| + |BREAK| <= available {
        IdsAppend(commits, more);
        commits := commits + more;
        included := included + Ids(more);
        fragment := candidate;
      }
    }
    assert bundles[..|bundles|] == bundles;
  }

  lemma LoadedFirst(render: seq<Record> -> string, required: set<Id>, bundles: seq<Bundle>, available: nat)
    ensures Loaded(render, required, bundles[..0], available) == []
  {}

  lemma LoadedNext(render: seq<Record> -> string, required: set<Id>, bundles: seq<Bundle>, available: nat, n: nat)
    requires n < |bundles|
    ensures var commits := Loaded(render, required, bundles[..n], available);
            Loaded(render, required, bundles[..n + 1], available) == commits + More(render, required, commits, bundles[n], available)
  {
    hide More;
    assert bundles[..n + 1][..n] == bundles[..n];
  }

  // ---------------------------------------------------------------- recent commits that fit

  function ScopeCommits(scopes: seq<Scope>): seq<Record> {
    if scopes == [] then [] else ScopeCommits(scopes[..|scopes| - 1]) + scopes[|scopes| - 1].commits
  }

  /** A scope is shown with the commits taken from it, or not at all. */
  function With(done: seq<Scope>, scope: Scope, commits: seq<Record>): seq<Scope> {
    if commits == [] then done else done + [scope.(commits := commits)]
  }

  predicate Fits(render: seq<Scope> -> string, shown: seq<Scope>, available: nat) {
    |render(shown)| + |BREAK| <= available
  }

  /** Of the first n commits of a scope, those that are new and fit after everything taken before them. */
  function Taken(render: seq<Scope> -> string, required: set<Id>, done: seq<Scope>, scope: Scope, n: nat, available: nat): seq<Record>
    requires n <= |scope.commits|
  {
    if n == 0 then []
    else
      var front, commit := Taken(render, required, done, scope, n - 1, available), scope.commits[n - 1];
      if commit.id !in required + Ids(ScopeCommits(done)) + Ids(front) && Fits(render, With(done, scope, front + [commit]), available)
      then front + [commit] else front
  }

  function Chosen(render: seq<Scope> -> string, required: set<Id>, scopes: seq<Scope>, available: nat): seq<Scope> {
    if scopes == [] then []
    else
      var done, scope := Chosen(render, required, scopes[..|scopes| - 1], available), scopes[|scopes| - 1];
      With(done, scope, Taken(render, required, done, scope, |scope.commits|, available))
  }

  /** No two records of one identity, and none of a known one. */
  ghost predicate New(required: set<Id>, commits: seq<Record>) {
    && (forall i :: 0 <= i < |commits| ==> commits[i].id !in required)
    && (forall i, j :: 0 <= i < j < |commits| ==> commits[i].id != commits[j].id)
  }

  lemma NewOneMore(required: set<Id>, commits: seq<Record>, more: seq<Record>, commit: Record)
    requires New(required, commits + more) && commit.id !in required + Ids(commits) + Ids(more)
    ensures New(required, commits + (more + [commit]))
  {
    assert commits + (more + [commit]) == (commits + more) + [commit];
    IdsAppend(commits, more);
  }

  lemma WithCommits(done: seq<Scope>, scope: Scope, commits: seq<Record>)
    ensures ScopeCommits(With(done, scope, commits)) == ScopeCommits(done) + commits
  {
    if commits != [] {
      assert With(done, scope, commits)[..|done|] == done;
    } else {
      assert ScopeCommits(done) + commits == ScopeCommits(done);
    }
  }

  lemma {:induction false} TakenNew(render: seq<Scope> -> string, required: set<Id>, done: seq<Scope>, scope: Scope, n: nat, available: nat)
    requires n <= |scope.commits| && New(required, ScopeCommits(done))
    ensures New(required, ScopeCommits(done) + Taken(render, required, done, scope, n, available))
    ensures forall commit :: commit in Taken(render, required, done, scope, n, available) ==> commit in scope.commits
    ensures Taken(render, required, done, scope, n, available) != [] ==>
              Fits(render, With(done, scope, Taken(render, required, done, scope, n, available)), available)
  {
    hide New, Ids, Fits, With, ScopeCommits;
    if n == 0 {
      assert ScopeCommits(done) + [] == ScopeCommits(done);
    } else {
      TakenNew(render, required, done, scope, n - 1, available);
      var front, commit := Taken(render, required, done, scope, n - 1, available), scope.commits[n - 1];
      if commit.id !in required + Ids(ScopeCommits(done)) + Ids(front) {
        NewOneMore(required, ScopeCommits(done), front, commit);
      }
    }
  }

  /** Everything shown is listed, nothing is shown twice or besides the required evidence, and together
      it fits. */
  lemma {:induction false} ChosenFits(render: seq<Scope> -> string, required: set<Id>, scopes: seq<Scope>, available: nat)
    ensures New(required, ScopeCommits(Chosen(render, required, scopes, available)))
    ensures forall commit :: commit in ScopeCommits(Chosen(render, required, scopes, available)) ==> commit in ScopeCommits(scopes)
    ensures Chosen(render, required, scopes, available) != [] ==> Fits(render, Chosen(render, required, scopes, available), available)
  {
    if scopes != [] {
      hide New, Fits, Taken;
      var done, scope := Chosen(render, required, scopes[..|scopes| - 1], available), scopes[|scopes| - 1];
      ChosenFits(render, required, scopes[..|scopes| - 1], available);
      TakenNew(render, required, done, scope, |scope.commits|, available);
      WithCommits(done, scope, Taken(render, required, done, scope, |scope.commits|, available));
    }
  }

  /** `a` reads as the beginning of `b`. */
  ghost predicate Beginning(a: seq<Scope>, b: seq<Scope>) {
    a != [] ==>
      var n := |a| - 1;
      && |a| <= |b| && a[..n] == b[..n] && a[n].name == b[n].name && a[n].head == b[n].head && a[n].commits <= b[n].commits
  }

  /** Showing more never takes fewer characters. */
  ghost predicate Growing(render: seq<Scope> -> string) {
    forall a, b :: Beginning(a, b) ==> |render(a)| <= |render(b)|
  }

  lemma {:induction false} TakenGrows(render: seq<Scope> -> string, required: set<Id>, done: seq<Scope>, scope: Scope, n: nat, m: nat, available: nat)
    requires n <= m <= |scope.commits|
    ensures Taken(render, required, done, scope, n, available) <= Taken(render, required, done, scope, m, available)
  {
    if n < m {
      TakenGrows(render, required, done, scope, n, m - 1, available);
    }
  }

  lemma {:induction false} ChosenGrows(render: seq<Scope> -> string, required: set<Id>, scopes: seq<Scope>, n: nat, available: nat)
    requires n <= |scopes|
    ensures Chosen(render, required, scopes[..n], available) <= Chosen(render, required, scopes, available)
  {
    if n == |scopes| {
      assert scopes[..n] == scopes;
    } else {
      hide Taken;
      ChosenGrows(render, required, scopes[..|scopes| - 1], n, available);
      assert scopes[..|scopes| - 1][..n] == scopes[..n];
    }
  }

  lemma IdsWithin(part: seq<Record>, whole: seq<Record>)
    requires part <= whole
    ensures Ids(part) <= Ids(whole)
  {
    assert whole == part + whole[|part|..];
    IdsAppend(part, whole[|part|..]);
  }

  /** What is shown, with one more commit of a scope in its place. */
  ghost predicate Inserted(shown: seq<Scope>, wider: seq<Scope>, scope: Scope, commit: Record) {
    exists done, front: seq<Record>, rest, later ::
      shown == With(done, scope, front + rest) + later && wider == done + [scope.(commits := front + [commit] + rest)] + later
  }

  /** If showing more never takes fewer characters, nothing that was left out would still fit: every
      listed commit is required, shown, or overflows what is shown. */
  lemma LeftOutOverflows(render: seq<Scope> -> string, required: set<Id>, scopes: seq<Scope>, available: nat, s: nat, c: nat)
    requires Growing(render) && s < |scopes| && c < |scopes[s].commits|
    requires scopes[s].commits[c].id !in required + Ids(ScopeCommits(Chosen(render, required, scopes, available)))
    ensures exists wider :: Inserted(Chosen(render, required, scopes, available), wider, scopes[s], scopes[s].commits[c])
                            && !Fits(render, wider, available)
  {
    hide Growing, Ids, ScopeCommits, Taken, Chosen;
    var scope, commit, shown := scopes[s], scopes[s].commits[c], Chosen(render, required, scopes, available);
    var done := Chosen(render, required, scopes[..s], available);
    var front, taken := Taken(render, required, done, scope, c, available), Taken(render, required, done, scope, |scope.commits|, available);
    var sofar := With(done, scope, taken);
    TakenGrows(render, required, done, scope, c, |scope.commits|, available);
    ChosenNext(render, required, scopes, s, available);
    ChosenGrows(render, required, scopes, s + 1, available);
    var rest, later := taken[|front|..], shown[|sofar|..];
    assert front + rest == taken && sofar <= shown;
    assert shown == With(done, scope, front + rest) + later;
    NotTaken(render, required, scopes, available, s, c);
    var wider := done + [scope.(commits := front + [commit] + rest)] + later;
    assert Inserted(shown, wider, scope, commit);
    Begins(done, scope, front + [commit], rest, later);
    Grown(render, done + [scope.(commits := front + [commit])], wider);
  }

  lemma Begins(done: seq<Scope>, scope: Scope, front: seq<Record>, rest: seq<Record>, later: seq<Scope>)
    ensures Beginning(done + [scope.(commits := front)], done + [scope.(commits := front + rest)] + later)
  {
    var narrow, wider := done + [scope.(commits := front)], done + [scope.(commits := front + rest)] + later;
    assert narrow[..|done|] == done && wider[..|done|] == done;
    assert front <= front + rest;
  }

  lemma Grown(render: seq<Scope> -> string, a: seq<Scope>, b: seq<Scope>)
    requires Growing(render) && Beginning(a, b)
    ensures |render(a)| <= |render(b)|
  {}

  lemma ChosenNext(render: seq<Scope> -> string, required: set<Id>, scopes: seq<Scope>, s: nat, available: nat)
    requires s < |scopes|
    ensures var done := Chosen(render, required, scopes[..s], available);
            Chosen(render, required, scopes[..s + 1], available)
            == With(done, scopes[s], Taken(render, required, done, scopes[s], |scopes[s].commits|, available))
  {
    assert scopes[..s + 1][..s] == scopes[..s];
  }

  /** What is neither required nor shown in the end did not fit when its turn came. */
  lemma NotTaken(render: seq<Scope> -> string, required: set<Id>, scopes: seq<Scope>, available: nat, s: nat, c: nat)
    requires s < |scopes| && c < |scopes[s].commits|
    requires scopes[s].commits[c].id !in required + Ids(ScopeCommits(Chosen(render, required, scopes, available)))
    ensures var done := Chosen(render, required, scopes[..s], available);
            var front := Taken(render, required, done, scopes[s], c, available);
            !Fits(render, done + [scopes[s].(commits := front + [scopes[s].commits[c]])], available)
  {
    hide Ids, ScopeCommits, Fits, Chosen;
    var scope, commit := scopes[s], scopes[s].commits[c];
    var done := Chosen(render, required, scopes[..s], available);
    var taken := Taken(render, required, done, scope, |scope.commits|, available);
    var front, next := Taken(render, required, done, scope, c, available), Taken(render, required, done, scope, c + 1, available);
    ChosenNext(render, required, scopes, s, available);
    ChosenGrows(render, required, scopes, s + 1, available);
    TakenGrows(render, required, done, scope, c, |scope.commits|, available);
    TakenGrows(render, required, done, scope, c + 1, |scope.commits|, available);
    WithCommits(done, scope, taken);
    CommitsWithin(With(done, scope, taken), Chosen(render, required, scopes, available));
    IdsWithin(ScopeCommits(With(done, scope, taken)), ScopeCommits(Chosen(render, required, scopes, available)));
    IdsAppend(ScopeCommits(done), taken);
    IdsWithin(front, taken);
    IdsWithin(next, taken);
    if next == front + [commit] {
      IdsAppend(front, [commit]);
      JustId(commit);
    }
  }

  lemma {:induction false} CommitsWithin(part: seq<Scope>, whole: seq<Scope>)
    requires part <= whole
    ensures ScopeCommits(part) <= ScopeCommits(whole)
  {
    if part != whole {
      var front := whole[..|whole| - 1];
      assert part <= front;
      CommitsWithin(part, front);
    }
  }

  /** The identities of the records, in their order. */
  predicate Named(ids: seq<Id>, commits: seq<Record>) {
    |ids| == |commits| && forall i | 0 <= i < |ids| :: ids[i] == commits[i].id
  }

  /** The inner loop of `_select_memory`: what is taken of one scope, commit by commit. */
  method SelectFrom(ghost required: set<Id>, scope: Scope, render: seq<Scope> -> string, available: nat,
                    selected: seq<Scope>, known: set<Id>, before: string)
    returns (commits: seq<Record>, ids: seq<Id>, fragment: string)
    requires known == required + Ids(ScopeCommits(selected))
    ensures commits == Taken(render, required, selected, scope, |scope.commits|, available) && Named(ids, commits)
    ensures fragment == if commits == [] then before else render(selected + [scope.(commits := commits)])
  {
    hide Ids, Taken, ScopeCommits;
    commits, ids, fragment := [], [], before;
    var included := known;
    NoIds();
    NothingTaken(render, required, selected, scope, available);
    for c := 0 to |scope.commits|
      invariant commits == Taken(render, required, selected, scope, c, available) && Named(ids, commits)
      invariant fragment == if commits == [] then before else render(selected + [scope.(commits := commits)])
      invariant included == known + Ids(commits)
    {
      var commit := scope.commits[c];
      TakenNext(render, required, selected, scope, c, available);
      if commit.id in included {
        continue;
      }
      var rendered := render(selected + [scope.(commits := commits + [commit])]);
      if |rendered| + |BREAK| <= available {
        IdsAppend(commits, [commit]);
        JustId(commit);
        commits := commits + [commit];
        ids := ids + [commit.id];
        included := included + {commit.id};
        fragment := rendered;
      }
    }
  }

  /** `_select_memory` without bundles: commit by commit, what still fits when rendered. */
  method SelectScopes(required: set<Id>, scopes: seq<Scope>, render: seq<Scope> -> string, available: nat)
    returns (fragment: string, ids: seq<Id>)
    ensures var shown := Chosen(render, required, scopes, available);
            fragment == (if shown == [] then "" else render(shown)) && Named(ids, ScopeCommits(shown))
    ensures fragment != "" ==> |fragment| + |BREAK| <= available
  {
    hide Ids, Chosen, Taken, Fits, ScopeCommits;
    var included := required;
    var selected: seq<Scope> := [];
    fragment, ids := "", [];
    NoIds();
    NothingChosen(render, required, available);
    assert scopes[..0] == [];
    for s := 0 to |scopes|
      invariant selected == Chosen(render, required, scopes[..s], available) && Named(ids, ScopeCommits(selected))
      invariant fragment == if selected == [] then "" else render(selected)
      invariant included == required + Ids(ScopeCommits(selected))
    {
      var commits, names, rendered := SelectFrom(required, scopes[s], render, available, selected, included, fragment);
      ChosenNext(render, required, scopes, s, available);
      WithCommits(selected, scopes[s], commits);
      IdsAppend(ScopeCommits(selected), commits);
      included := included + Ids(commits);
      ids, fragment := ids + names, rendered;
      if commits != [] {
        selected := selected + [scopes[s].(commits := commits)];
      } else {
        NoIds();
      }
    }
    assert scopes[..|scopes|] == scopes;
    FitsMeans(render, required, scopes, available);
  }

  lemma NothingChosen(render: seq<Scope> -> string, required: set<Id>, available: nat)
    ensures Chosen(render, required, [], available) == [] && ScopeCommits([]) == []
  {}

  lemma NothingTaken(render: seq<Scope> -> string, required: set<Id>, done: seq<Scope>, scope: Scope, available: nat)
    ensures Taken(render, required, done, scope, 0, available) == []
  {}

  lemma TakenNext(render: seq<Scope> -> string, required: set<Id>, done: seq<Scope>, scope: Scope, c: nat, available: nat)
    requires c < |scope.commits|
    ensures var front, commit := Taken(render, required, done, scope, c, available), scope.commits[c];
            Taken(render, required, done, scope, c + 1, available)
            == if commit.id !in required + Ids(ScopeCommits(done)) + Ids(front)
                  && |render(done + [scope.(commits := front + [commit])])| + |BREAK| <= available
               then front + [commit] else front
  {
    hide Ids;
  }

  lemma JustId(commit: Record)
    ensures Ids([commit]) == {commit.id}
  {
    assert [commit][0] == commit;
  }

  lemma FitsMeans(render: seq<Scope> -> string, required: set<Id>, scopes: seq<Scope>, available: nat)
    ensures var shown := Chosen(render, required, scopes, available);
            shown != [] ==> |render(shown)| + |BREAK| <= available
  {
    hide Chosen;
    ChosenFits(render, required, scopes, available);
  }

  // ---------------------------------------------------------------- assembling

  function TagMessage(): ChatMessage {
    ChatMessage(User, TAG, [], "")
  }

  function SystemMessage(text: string): ChatMessage {
    ChatMessage(System, text, [], "")
  }

  /** The history with everything between the first group and the k-th replaced by the marker. */
  function Trimmed(system: ChatMessage, groups: seq<seq<ChatMessage>>, k: nat): seq<ChatMessage>
    requires groups != [] && k <= |groups|
  {
    [system] + groups[0] + [TagMessage()] + Flat(groups[k..])
  }

  lemma TrimmedSize(system: ChatMessage, groups: seq<seq<ChatMessage>>, k: nat)
    requires groups != [] && k <= |groups|
    ensures TotalOf(Trimmed(system, groups, k))
         == MessageSize(system) + TotalOf(groups[0]) + |TAG| + TotalOf(Flat(groups[k..]))
  {
    hide Flat;
    TotalAppend([system], groups[0]);
    TotalAppend([system] + groups[0], [TagMessage()]);
    TotalAppend([system] + groups[0] + [TagMessage()], Flat(groups[k..]));
    TotalOne(system);
    TotalOne(TagMessage());
  }

  lemma TotalOne(m: ChatMessage)
    ensures TotalOf([m]) == MessageSize(m)
  {
    assert [m][..0] == [];
  }

  lemma SuffixSize(groups: seq<seq<ChatMessage>>, k: nat)
    requires 0 < k <= |groups|
    ensures TotalOf(Flat(groups[k - 1..])) == TotalOf(groups[k - 1]) + TotalOf(Flat(groups[k..]))
  {
    assert groups[k - 1..] == [groups[k - 1]] + groups[k..];
    FlatSplit(groups[k - 1..], 1);
    assert groups[k - 1..][..1] == [groups[k - 1]] && groups[k - 1..][1..] == groups[k..];
    assert [groups[k - 1]][..0] == [] && [] + groups[k - 1] == groups[k - 1];
    assert Flat([groups[k - 1]]) == groups[k - 1];
    TotalAppend(groups[k - 1], Flat(groups[k..]));
  }

  /** `_trim_history`: keeps the first group and the longest suffix of the others that fits. */
  method TrimHistory(system: ChatMessage, groups: seq<seq<ChatMessage>>, messageBudget: int)
    returns (r: Result<seq<ChatMessage>, Error>, ghost k: nat)
    requires |groups| > 1
    ensures r.Err? <==> TotalOf(Trimmed(system, groups, |groups| - 1)) > messageBudget
    ensures r.Err? ==> r.error == BudgetExceeded
    ensures r.Ok? ==> 1 <= k < |groups| && r.value == Trimmed(system, groups, k) && TotalOf(r.value) <= messageBudget
    ensures r.Ok? && k > 1 ==> TotalOf(Trimmed(system, groups, k - 1)) > messageBudget
  {
    hide Flat, Trimmed, TotalOf, MessageSize;
    var left := messageBudget - MessageSize(system) - |TAG| - TotalOf(groups[0]);
    var from := |groups|;
    EmptySuffix(groups);
    TrimmedSize(system, groups, |groups| - 1);
    SuffixSize(groups, |groups|);
    while from > 1
      invariant 1 <= from <= |groups|
      invariant left == messageBudget - MessageSize(system) - |TAG| - TotalOf(groups[0]) - TotalOf(Flat(groups[from..]))
      invariant from < |groups| ==> left >= 0
    {
      var size := TotalOf(groups[from - 1]);
      SuffixSize(groups, from);
      if size > left {
        break;
      }
      left := left - size;
      from := from - 1;
    }
    k := from;
    TrimmedSize(system, groups, from);
    if from > 1 {
      TrimmedSize(system, groups, from - 1);
      SuffixSize(groups, from);
    }
    if from == |groups| {
      return Err(BudgetExceeded), k;
    }
    LongerSuffix(groups, from, |groups| - 1);
    return Ok(Trimmed(system, groups, from)), k;
  }

  lemma EmptySuffix(groups: seq<seq<ChatMessage>>)
    ensures TotalOf(Flat(groups[|groups|..])) == 0
  {}

  lemma {:induction false} LongerSuffix(groups: seq<seq<ChatMessage>>, a: nat, b: nat)
    requires a <= b <= |groups|
    ensures TotalOf(Flat(groups[a..])) >= TotalOf(Flat(groups[b..]))
    decreases b - a
  {
    hide Flat, TotalOf;
    if a < b {
      SuffixSize(groups, a + 1);
      LongerSuffix(groups, a + 1, b);
    }
  }

  datatype Assembly = Assembly(messages: seq<ChatMessage>, selected: seq<Id>)

  /** The first and the last group, which every prompt keeps. */
  function RequiredSize(groups: seq<seq<ChatMessage>>): nat
    requires groups != []
  {
    TotalOf(groups[0]) + if |groups| == 1 then 0 else TotalOf(groups[|groups| - 1])
  }

  /** When no prompt can be assembled: what every prompt keeps exceeds the budget; or history has to be
      cut, and with the marker it exceeds the budget. */
  ghost predicate Overflows(base: nat, groups: seq<seq<ChatMessage>>, messageBudget: int)
    requires groups != []
  {
    var minimum := base + RequiredSize(groups);
    || minimum > messageBudget
    || (|groups| > 2 && base + TotalOf(Flat(groups)) > messageBudget && minimum + |TAG| > messageBudget)
  }

  /** What is left for memories beside everything a prompt keeps and, if history may be cut, the marker. */
  function Available(base: nat, groups: seq<seq<ChatMessage>>, messageBudget: int): (available: nat)
    requires groups != []
    ensures |groups| <= 2 && available > 0 ==> base + RequiredSize(groups) + available == messageBudget
    ensures |groups| >= 3 && available > 0 ==> base + RequiredSize(groups) + |TAG| + available == messageBudget
    ensures available == 0 ==> base + RequiredSize(groups) + (if |groups| >= 3 then |TAG| else 0) >= messageBudget
  {
    var left := messageBudget - base - RequiredSize(groups) - if |groups| > 2 then |TAG| else 0;
    if left > 0 then left else 0
  }

  /** What of a memory a prompt shows in so many characters: whole bundles, or single recent commits. */
  function Included(memory: Option<Memory>, available: nat): seq<Record> {
    if memory.None? then []
    else
      var m := memory.value;
      match m.bundles
      case Some(bundles) => Loaded(m.renderBundles, Ids(m.required), bundles, available)
      case None => ScopeCommits(Chosen(m.renderScopes, Ids(m.required), m.scopes, available))
  }

  function Rendered(memory: Option<Memory>, available: nat): string {
    if memory.None? then ""
    else
      var m := memory.value;
      match m.bundles
      case Some(bundles) =>
        var commits := Loaded(m.renderBundles, Ids(m.required), bundles, available);
        if commits == [] then "" else m.renderBundles(commits)
      case None =>
        var shown := Chosen(m.renderScopes, Ids(m.required), m.scopes, available);
        if shown == [] then "" else m.renderScopes(shown)
  }

  function Shown(fragments: seq<string>, fragment: string): string {
    Join(if fragment != "" then fragments + [fragment] else fragments)
  }

  lemma TwoGroups(groups: seq<seq<ChatMessage>>)
    requires groups != []
    ensures |groups| <= 2 ==> TotalOf(Flat(groups)) == RequiredSize(groups)
    ensures TotalOf(Flat(groups)) >= TotalOf(groups[0])
  {
    hide Flat, TotalOf;
    SuffixSize(groups, 1);
    assert groups[0..] == groups;
    if |groups| == 2 {
      SuffixSize(groups, 2);
    }
    EmptySuffix(groups);
  }

  lemma LastSuffix(groups: seq<seq<ChatMessage>>)
    requires groups != []
    ensures TotalOf(Flat(groups[|groups| - 1..])) == TotalOf(groups[|groups| - 1])
  {
    hide Flat, TotalOf;
    SuffixSize(groups, |groups|);
    EmptySuffix(groups);
  }

  /** `assemble`, with the fragments that are always shown already rendered. The transcript is kept
      whole if it fits; otherwise its first group, the marker and the longest fitting suffix of whole
      groups are kept, the last group always among them. */
  method Assemble(fragments: seq<string>, messages: seq<ChatMessage>, memory: Option<Memory>, messageBudget: int)
    returns (r: Result<Assembly, Error>, ghost groups: seq<seq<ChatMessage>>, ghost system: ChatMessage, ghost k: nat)
    ensures Grouped(messages, groups) && EndsSettled(groups) && (messages == [] <==> groups == [])
    ensures messages == [] <==> r == Err(EmptyTranscript)
    ensures messages != [] ==> (r == Err(BudgetExceeded) <==> Overflows(|Join(fragments)|, groups, messageBudget))
    ensures r.Ok? ==> TotalOf(r.value.messages) <= messageBudget
    ensures r.Ok? ==> system.role.System? && |Join(fragments)| <= |system.content|
    ensures r.Ok? ==> if |system.content| + TotalOf(messages) <= messageBudget
                      then r.value.messages == [system] + messages
                      else 1 <= k < |groups| && r.value.messages == Trimmed(system, groups, k)
                           && (k > 1 ==> TotalOf(Trimmed(system, groups, k - 1)) > messageBudget)
    ensures r.Ok? ==> var available := Available(|Join(fragments)|, groups, messageBudget);
              system.content == Shown(fragments, Rendered(memory, available)) && Named(r.value.selected, Included(memory, available))
  {
    hide Grouped, EndsSettled, Flat, TotalOf, Join, Trimmed, Included, Rendered, Named, MessageSize;
    groups, system, k := [], SystemMessage(""), 0;
    var cut := TranscriptGroups(messages);
    groups := cut;
    if messages == [] {
      return Err(EmptyTranscript), groups, system, k;
    }
    GroupedFlat(messages, groups);
    var minimum := |Join(fragments)| + RequiredSize(cut);
    if minimum > messageBudget {
      return Err(BudgetExceeded), groups, system, k;
    }
    var available := Available(|Join(fragments)|, cut, messageBudget);
    var fragment, selected := SelectMemory(memory, available);
    JoinOneMore(fragments, fragment);
    var text := Shown(fragments, fragment);
    system := SystemMessage(text);
    PlainSize(system);
    TwoGroups(groups);
    LastSuffix(groups);
    if |text| + TotalOf(messages) <= messageBudget {
      TotalAppend([system], messages);
      TotalOne(system);
      return Ok(Assembly([SystemMessage(text)] + messages, selected)), groups, system, k;
    }
    TrimmedSize(system, groups, |groups| - 1);
    var trimmed, from := TrimHistory(SystemMessage(text), cut, messageBudget);
    k := from;
    if trimmed.Err? {
      return Err(trimmed.error), groups, system, k;
    }
    return Ok(Assembly(trimmed.value, selected)), groups, system, k;
  }

  lemma GroupedFlat(messages: seq<ChatMessage>, groups: seq<seq<ChatMessage>>)
    requires Grouped(messages, groups)
    ensures Flat(groups) == messages
  {}

  lemma PlainSize(m: ChatMessage)
    requires m.calls == []
    ensures MessageSize(m) == |m.content|
  {}

  /** `_select_memory`. */
  method SelectMemory(memory: Option<Memory>, available: nat) returns (fragment: string, selected: seq<Id>)
    ensures fragment != "" ==> |fragment| + |BREAK| <= available
    ensures fragment == Rendered(memory, available) && Named(selected, Included(memory, available))
  {
    if memory.None? {
      return "", [];
    }
    var required := Ids(memory.value.required);
    if memory.value.bundles.Some? {
      var commits;
      fragment, commits := SelectBundles(required, memory.value.bundles.value, memory.value.renderBundles, available);
      selected := seq(|commits|, i requires 0 <= i < |commits| => commits[i].id);
    } else {
      fragment, selected := SelectScopes(required, memory.value.scopes, memory.value.renderScopes, available);
    }
  }
}
