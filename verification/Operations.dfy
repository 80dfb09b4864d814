/** Crash-recoverable dispatch of operations (src/aurora_bot/operations/registry.py).

    A dispatch is cut into the segments between its awaits; one method per segment, each choosing
    freely what the environment answers. A run is any sequence of these method calls on one
    registry, interleaving any number of dispatches, and `Crash` may come between any two of them:
    it forgets everything but the journal. */
module Operations {
  import opened Common

  type Target = string
  type Ref = string

  datatype Kind = Command | Query

  datatype Definition = Definition(kind: Kind, retrySafe: bool)

  /** What the source hashes into the request's identity; the hash is taken to be injective. */
  datatype Identity = Identity(botId: string, source: string, requestId: string)

  datatype Request = Request(identity: Identity, target: Target, kind: Kind, arguments: string, deadline: Option<int>)

  datatype Status = Succeeded | Failed | Unknown

  datatype OpResult = OpResult(status: Status, message: string, data: string)

  datatype Error = WrongBot | Recursive | IdentityReused | NoHandler | Interrupted

  // ---------------------------------------------------------------- the journal

  datatype CommitId = Requested(identity: Identity) | ResultOf(identity: Identity)

  datatype Fact = RequestFact(request: Request, resolved: Option<Ref>) | ResultFact(result: OpResult)

  type Journal = map<CommitId, Fact>

  /** The journal's contract: a known id is accepted again only with equal content. */
  function Append(journal: Journal, id: CommitId, fact: Fact): Option<Journal> {
    if id !in journal then Some(journal[id := fact])
    else if journal[id] == fact then Some(journal)
    else None
  }

  // ---------------------------------------------------------------- a dispatch in progress

  /** Where a dispatch is waiting. */
  datatype Point =
    | Waiting                                    // for the lock of its identity
    | Looking                                    // holds the lock, reads the request commit
    | Recording(resolved: Option<Ref>, rejected: OpResult)  // about to write the request
    | Recorded(resolved: Option<Ref>, rejected: OpResult)   // the request is written
    | Comparing(previous: Fact)                  // decodes the stored request
    | Fetching(previous: Fact)                   // reads the result commit
    | Executing(ref: Ref)                        // inside the handler
    | Settling(result: OpResult)                 // about to write the result
    | Settled(result: OpResult)                  // the result is written

  class RequestSlot {
    var locked: bool
    var users: nat
    var owner: Option<nat>

    constructor ()
      ensures !locked && users == 0 && owner == None
    {
      locked, users, owner := false, 0, None;
    }

    /** One user goes, and gives the lock back if it was its holder. */
    method Give(held: bool)
      requires users > 0
      modifies this
      ensures users == old(users) - 1 && locked == (old(locked) && !held) && owner == if held then None else old(owner)
    {
      if held {
        owner, locked := None, false;
      }
      users := users - 1;
    }
  }

  datatype Call = Call(task: nat, request: Request, slot: RequestSlot, point: Point)

  predicate Holds(c: Call) {
    !c.point.Waiting?
  }

  function CallsOn(calls: map<nat, Call>, identity: Identity): set<nat> {
    set c | c in calls && calls[c].request.identity == identity
  }

  function HoldersOf(calls: map<nat, Call>, identity: Identity): set<nat> {
    set c | c in calls && calls[c].request.identity == identity && Holds(calls[c])
  }

  // ---------------------------------------------------------------- the protocol

  datatype Begin = Begin(identity: Identity, ref: Ref)
  datatype Report = Report(identity: Identity, status: Status)
  datatype Answer = Answer(request: Request, result: OpResult)

  /** The ghost record of a run: handler starts, what handlers reported, what callers were told. */
  datatype Trail = Trail(begun: seq<Begin>, reports: seq<Report>, answers: seq<Answer>)

  predicate Replayable(d: Definition) {
    d.kind.Query? || d.retrySafe
  }

  ghost predicate HasBegun(trail: Trail, identity: Identity) {
    exists b :: b in trail.begun && b.identity == identity
  }

  ghost predicate HasReported(trail: Trail, identity: Identity, status: Status) {
    Report(identity, status) in trail.reports
  }

  ghost predicate RequestedAs(journal: Journal, request: Request, resolved: Option<Ref>) {
    Requested(request.identity) in journal && journal[Requested(request.identity)] == RequestFact(request, resolved)
  }

  /** Whether a FAILED receipt can be relied on, as a caller can tell before the dispatch: the operation
      is a command, and it is not retried past a deadline. */
  predicate Reliable(d: Definition, request: Request) {
    d.kind.Command? && (!d.retrySafe || request.deadline.None?)
  }

  /** A FAILED result is the handler's own word, or the handler never began, unless the operation is
      one whose failures cannot be relied on. */
  ghost predicate HonestFailure(trail: Trail, definitions: Ref -> Definition, request: Request, resolved: Option<Ref>) {
    || !HasBegun(trail, request.identity)
    || HasReported(trail, request.identity, Failed)
    || (resolved.Some? && !Reliable(definitions(resolved.value), request))
  }

  ghost predicate PointOk(journal: Journal, trail: Trail, definitions: Ref -> Definition, request: Request, point: Point) {
    var id := request.identity;
    match point
    case Waiting => true
    case Looking => true
    case Recording(resolved, rejected) => Requested(id) !in journal && (resolved.None? ==> rejected.status.Failed?)
    case Recorded(resolved, rejected) =>
      RequestedAs(journal, request, resolved) && ResultOf(id) !in journal && !HasBegun(trail, id)
      && (resolved.None? ==> rejected.status.Failed?)
    case Comparing(previous) =>
      Requested(id) in journal && journal[Requested(id)] == previous && previous.RequestFact?
    case Fetching(previous) =>
      previous.RequestFact? && previous.request == request && RequestedAs(journal, request, previous.resolved)
    case Executing(ref) =>
      RequestedAs(journal, request, Some(ref)) && ResultOf(id) !in journal && HasBegun(trail, id)
    case Settling(result) =>
      && Requested(id) in journal && journal[Requested(id)].RequestFact? && journal[Requested(id)].request == request
      && ResultOf(id) !in journal
      && (result.status.Failed? ==> HonestFailure(trail, definitions, request, journal[Requested(id)].resolved))
    case Settled(result) =>
      RequestedBy(journal, request) && ResultOf(id) in journal && journal[ResultOf(id)] == ResultFact(result)
  }

  ghost predicate RequestedBy(journal: Journal, request: Request) {
    Requested(request.identity) in journal && journal[Requested(request.identity)].RequestFact?
    && journal[Requested(request.identity)].request == request
  }

  /** The number of times a handler was begun for one identity. */
  function Begins(begun: seq<Begin>, identity: Identity): nat {
    if begun == [] then 0
    else Begins(begun[..|begun| - 1], identity) + if begun[|begun| - 1].identity == identity then 1 else 0
  }

  /** The identity stands for a command that must not be replayed. */
  ghost predicate RequestedOnce(journal: Journal, definitions: Ref -> Definition, id: Identity) {
    && Requested(id) in journal && journal[Requested(id)].RequestFact? && journal[Requested(id)].resolved.Some?
    && !Replayable(definitions(journal[Requested(id)].resolved.value))
  }

  /** What the journal and the trail say about one identity, in every state of every run. */
  ghost predicate Lawful(journal: Journal, trail: Trail, definitions: Ref -> Definition, id: Identity) {
    && (Requested(id) in journal ==>
          journal[Requested(id)].RequestFact? && journal[Requested(id)].request.identity == id)
    && (ResultOf(id) in journal ==> journal[ResultOf(id)].ResultFact? && Requested(id) in journal)
    // a handler begins only for a recorded request, with the target frozen there
    && (forall b :: b in trail.begun && b.identity == id ==>
          Requested(id) in journal && journal[Requested(id)].resolved == Some(b.ref))
    && (HasBegun(trail, id) <==> Begins(trail.begun, id) > 0)
    // what may not be replayed begins at most once
    && (RequestedOnce(journal, definitions, id) ==> Begins(trail.begun, id) <= 1)
    && (ResultOf(id) in journal && journal[ResultOf(id)].result.status.Failed? ==>
          HonestFailure(trail, definitions, journal[Requested(id)].request, journal[Requested(id)].resolved))
    // only a handler that was begun reports
    && (forall s :: HasReported(trail, id, s) ==> HasBegun(trail, id))
    // every caller was told the stored receipt, and asked for exactly the stored request
    && (forall a :: a in trail.answers && a.request.identity == id ==>
          && RequestedBy(journal, a.request)
          && ResultOf(id) in journal && journal[ResultOf(id)] == ResultFact(a.result))
  }

  ghost predicate Protocol(journal: Journal, trail: Trail, definitions: Ref -> Definition, calls: map<nat, Call>) {
    && (forall id :: Lawful(journal, trail, definitions, id))
    && (forall c :: c in calls ==> PointOk(journal, trail, definitions, calls[c].request, calls[c].point))
  }

  /** Two states say the same about an identity. */
  ghost predicate Agree(j: Journal, t: Trail, j': Journal, t': Trail, id: Identity) {
    && (Requested(id) in j <==> Requested(id) in j') && (Requested(id) in j ==> j[Requested(id)] == j'[Requested(id)])
    && (ResultOf(id) in j <==> ResultOf(id) in j') && (ResultOf(id) in j ==> j[ResultOf(id)] == j'[ResultOf(id)])
    && (forall b: Begin :: b.identity == id ==> (b in t.begun <==> b in t'.begun))
    && Begins(t.begun, id) == Begins(t'.begun, id)
    && (forall s :: HasReported(t, id, s) <==> HasReported(t', id, s))
    && (forall a: Answer :: a.request.identity == id ==> (a in t.answers <==> a in t'.answers))
  }

  lemma AgreeKeeps(j: Journal, t: Trail, j': Journal, t': Trail, definitions: Ref -> Definition, id: Identity)
    requires Agree(j, t, j', t', id)
    ensures HasBegun(t, id) <==> HasBegun(t', id)
    ensures Lawful(j, t, definitions, id) ==> Lawful(j', t', definitions, id)
    ensures forall request: Request, point: Point ::
              request.identity == id && PointOk(j, t, definitions, request, point) ==> PointOk(j', t', definitions, request, point)
  {
    assert HasBegun(t, id) <==> HasBegun(t', id) by {
      if HasBegun(t, id) { var b :| b in t.begun && b.identity == id; assert b in t'.begun; }
      if HasBegun(t', id) { var b :| b in t'.begun && b.identity == id; assert b in t.begun; }
    }
    hide HasBegun, HasReported, Begins;
    forall request: Request, resolved | request.identity == id && HonestFailure(t, definitions, request, resolved)
      ensures HonestFailure(t', definitions, request, resolved)
    {}
    if Lawful(j, t, definitions, id) {
      forall a | a in t'.answers && a.request.identity == id
        ensures RequestedBy(j', a.request) && ResultOf(id) in j' && j'[ResultOf(id)] == ResultFact(a.result)
      {
        assert a in t.answers;
      }
    }
  }

  /** A step of the dispatch that holds an identity's lock concerns that identity alone. */
  lemma StepKeeps(j: Journal, t: Trail, j': Journal, t': Trail, definitions: Ref -> Definition,
                  calls: map<nat, Call>, c: nat, point: Point)
    requires Protocol(j, t, definitions, calls) && c in calls
    requires forall d :: d in calls && d != c && calls[d].request.identity == calls[c].request.identity ==> calls[d].point.Waiting?
    requires forall id :: id != calls[c].request.identity ==> Agree(j, t, j', t', id)
    requires Lawful(j', t', definitions, calls[c].request.identity)
    requires PointOk(j', t', definitions, calls[c].request, point)
    ensures Protocol(j', t', definitions, calls[c := calls[c].(point := point)])
  {
    hide Agree, Lawful, PointOk;
    var after := calls[c := calls[c].(point := point)];
    forall id ensures Lawful(j', t', definitions, id) {
      if id != calls[c].request.identity {
        AgreeKeeps(j, t, j', t', definitions, id);
      }
    }
    forall d | d in after ensures PointOk(j', t', definitions, after[d].request, after[d].point) {
      if d != c {
        var id := calls[d].request.identity;
        if id != calls[c].request.identity {
          AgreeKeeps(j, t, j', t', definitions, id);
        } else {
          WaitingIsOk(j', t', definitions, calls[d].request);
        }
      }
    }
  }

  lemma WaitingIsOk(j: Journal, t: Trail, definitions: Ref -> Definition, request: Request)
    ensures PointOk(j, t, definitions, request, Waiting)
  {}

  lemma EnterKeeps(j: Journal, t: Trail, definitions: Ref -> Definition, calls: map<nat, Call>, c: nat, call: Call)
    requires Protocol(j, t, definitions, calls) && c !in calls && call.point.Waiting?
    ensures Protocol(j, t, definitions, calls[c := call])
  {
    WaitingIsOk(j, t, definitions, call.request);
  }

  lemma LeaveKeeps(j: Journal, t: Trail, definitions: Ref -> Definition, calls: map<nat, Call>, c: nat)
    requires Protocol(j, t, definitions, calls)
    ensures Protocol(j, t, definitions, calls - {c})
  {}

  /** Writing one of an identity's commits says nothing about the others. */
  lemma WriteElsewhere(j: Journal, t: Trail, j': Journal, key: CommitId, fact: Fact)
    requires j' == j[key := fact]
    ensures forall id :: id != key.identity ==> Agree(j, t, j', t, id)
  {}

  lemma BeginElsewhere(j: Journal, t: Trail, t': Trail, b: Begin)
    requires t' == t.(begun := t.begun + [b])
    ensures forall id :: id != b.identity ==> Agree(j, t, j, t', id)
    ensures Begins(t.begun + [b], b.identity) == Begins(t.begun, b.identity) + 1
  {
    assert (t.begun + [b])[..|t.begun|] == t.begun;
  }

  lemma ReportElsewhere(j: Journal, t: Trail, t': Trail, r: Report)
    requires t' == t.(reports := t.reports + [r])
    ensures forall id :: id != r.identity ==> Agree(j, t, j, t', id)
    ensures forall id, s :: HasReported(t', id, s) <==> HasReported(t, id, s) || r == Report(id, s)
  {}

  /** The report of a handler that has begun leaves what is known of its identity lawful. */
  lemma ReportLawful(j: Journal, t: Trail, t': Trail, definitions: Ref -> Definition, r: Report)
    requires t' == t.(reports := t.reports + [r]) && HasBegun(t, r.identity) && Lawful(j, t, definitions, r.identity)
    ensures Lawful(j, t', definitions, r.identity) && HasBegun(t', r.identity)
  {
    hide Begins;
    ReportElsewhere(j, t, t', r);
  }

  lemma AnswerElsewhere(j: Journal, t: Trail, t': Trail, a: Answer)
    requires t' == t.(answers := t.answers + [a])
    ensures forall id :: id != a.request.identity ==> Agree(j, t, j, t', id)
  {}

  lemma SameState(j: Journal, t: Trail)
    ensures forall id :: Agree(j, t, j, t, id)
  {}

  /** Callers of one identity asked for the same thing and were told the same thing. */
  lemma AnswersAgree(journal: Journal, trail: Trail, definitions: Ref -> Definition, a: Answer, b: Answer)
    requires forall id :: Lawful(journal, trail, definitions, id)
    requires a in trail.answers && b in trail.answers && a.request.identity == b.request.identity
    ensures a == b
  {
    assert Lawful(journal, trail, definitions, a.request.identity);
  }

  // ---------------------------------------------------------------- the registry

  const EXPIRED := OpResult(Failed, "deadline reached before the start", "")
  const ABANDONED := OpResult(Failed, "interrupted during validation", "")
  const UNCONFIRMED := OpResult(Unknown, "started, result unconfirmed", "")

  /** What the environment decides at one await: interruption, a yes or no (arguments valid, deadline
      passed), a message, and what the handler returned. */
  datatype Choice = Choice(interrupted: bool, flag: bool, message: string, outcome: Option<OpResult>)

  /** What the environment decides during one dispatch: whether the arguments fit and what is said against
      them, whether the deadline has passed, and what the handler returns or fails with. */
  datatype Circumstances = Circumstances(valid: bool, objection: string, expired: bool, outcome: Option<OpResult>, fault: string)

  /** What is recorded of a handler that was begun. */
  ghost function Word(d: Definition, w: Circumstances): OpResult {
    match w.outcome
    case Some(result) => result
    case None => OpResult(if d.kind.Query? then Failed else Unknown, w.fault, "")
  }

  ghost predicate Late(request: Request, w: Circumstances) {
    request.deadline.Some? && w.expired
  }

  /** The trail of one dispatch that is answered. */
  ghost function Told(t: Trail, request: Request, begun: Option<Ref>, w: Circumstances, result: OpResult): Trail {
    Trail(t.begun + (if begun.Some? then [Begin(request.identity, begun.value)] else []),
          t.reports + (if begun.Some? && w.outcome.Some? then [Report(request.identity, w.outcome.value.status)] else []),
          t.answers + [Answer(request, result)])
  }

  datatype Step =
    | StepEnter(c: nat, task: nat, request: Request)
    | StepMove(c: nat, choice: Choice)
    | StepCrash(catalog: map<Target, Ref>, handlers: set<Ref>)

  /** From one state of a run to a later one. */
  ghost predicate Later(j: Journal, t: Trail, j': Journal, t': Trail) {
    && (forall key :: key in j ==> key in j' && j'[key] == j[key])
    && t.answers <= t'.answers && t.reports <= t'.reports
    && (forall id :: Begins(t'.begun, id) >= Begins(t.begun, id))
    && (forall id :: ResultOf(id) in j ==> Begins(t'.begun, id) == Begins(t.begun, id))
  }

  lemma LaterSame(j: Journal, t: Trail)
    ensures Later(j, t, j, t)
  {}

  lemma LaterTrans(j: Journal, t: Trail, j': Journal, t': Trail, j'': Journal, t'': Trail)
    requires Later(j, t, j', t') && Later(j', t', j'', t'')
    ensures Later(j, t, j'', t'')
  {}

  lemma BeginsAppend(before: seq<Begin>, after: seq<Begin>)
    ensures forall b :: after == before + [b] ==>
              forall id :: Begins(after, id) == Begins(before, id) + if b.identity == id then 1 else 0
  {
    if |after| == |before| + 1 {
      assert forall b :: after == before + [b] ==> after[..|before|] == before;
    }
  }

  /** The receipt says FAILED, yet the handler began and did not say so. */
  ghost predicate Misleads(journal: Journal, trail: Trail, id: Identity) {
    && ResultOf(id) in journal && journal[ResultOf(id)].ResultFact? && journal[ResultOf(id)].result.status.Failed?
    && HasBegun(trail, id) && !HasReported(trail, id, Failed)
  }

  /** The identity was requested for an operation whose failures cannot be relied on. */
  ghost predicate RequestedUnreliably(journal: Journal, definitions: Ref -> Definition, id: Identity) {
    && Requested(id) in journal && journal[Requested(id)].RequestFact? && journal[Requested(id)].resolved.Some?
    && !Reliable(definitions(journal[Requested(id)].resolved.value), journal[Requested(id)].request)
  }

  /** In every state of every run: a receipt misleads only about an operation that is not reliable. */
  lemma MisleadsOnlyIf(journal: Journal, trail: Trail, definitions: Ref -> Definition, calls: map<nat, Call>, id: Identity)
    requires Protocol(journal, trail, definitions, calls) && Misleads(journal, trail, id)
    ensures RequestedUnreliably(journal, definitions, id)
  {
    hide Begins, PointOk;
    assert Lawful(journal, trail, definitions, id);
    var b :| b in trail.begun && b.identity == id;
  }

  class OperationRegistry {
    const botId: string
    const definitions: Ref -> Definition   // a reference names one version of one definition

    // what this process registered; a restart may register something else
    var catalog: map<Target, Ref>
    var handlers: set<Ref>

    var requests: map<Identity, RequestSlot>
    var calls: map<nat, Call>

    var journal: Journal
    ghost var trail: Trail

    /** The slots as their users see them. */
    ghost function View(): map<Identity, SlotView>
      reads this`requests, set id | id in requests :: requests[id]
    {
      map id | id in requests :: SlotView(requests[id].users, requests[id].locked, requests[id].owner)
    }

    ghost predicate Table()
      reads this, set id | id in requests :: requests[id]
    {
      Linked(requests, calls) && Counted(View(), calls)
    }

    ghost predicate Valid()
      reads this, set id | id in requests :: requests[id]
    {
      Table() && Protocol(journal, trail, definitions, calls)
    }

    constructor (botId: string, definitions: Ref -> Definition, catalog: map<Target, Ref>, handlers: set<Ref>)
      ensures Valid() && journal == map[] && calls == map[] && requests == map[] && trail == Trail([], [], [])
      ensures this.botId == botId && this.definitions == definitions && this.catalog == catalog && this.handlers == handlers
    {
      this.botId, this.definitions, this.catalog, this.handlers := botId, definitions, catalog, handlers;
      requests, calls, journal := map[], map[], map[];
      trail := Trail([], [], []);
    }

    /** A new process: the journal survives, and so does what handlers have done to the world. */
    method Crash(catalog: map<Target, Ref>, handlers: set<Ref>)
      requires Valid()
      modifies this
      ensures Valid() && calls == map[] && requests == map[]
      ensures journal == old(journal) && trail == old(trail) && this.catalog == catalog && this.handlers == handlers
    {
      hide Lawful;
      requests, calls := map[], map[];
      this.catalog, this.handlers := catalog, handlers;
    }

    // -------------------------------------------------------------- the lock table

    method Enter(c: nat, task: nat, request: Request) returns (r: Result<(), Error>)
      requires Valid() && c !in calls
      modifies this`requests, this`calls, set id | id in requests :: requests[id]
      ensures Valid()
      ensures r.Err? <==> request.identity.botId != botId || HeldBy(old(calls), request.identity, task)
      ensures r.Err? ==> calls == old(calls) && requests == old(requests)
      ensures r.Ok? ==> c in calls && calls == old(calls)[c := Call(task, request, calls[c].slot, Waiting)]
      ensures r.Ok? ==> calls[c].slot.locked == (exists d :: d in old(calls) && d in HoldersOf(old(calls), request.identity))
      ensures forall id :: id in old(requests) ==> id in requests && requests[id] == old(requests)[id]
      ensures r.Ok? ==> request.identity in requests && calls[c].slot == requests[request.identity]
      ensures forall id :: id in requests && id !in old(requests) ==> fresh(requests[id])
    {
      hide Protocol, Counted, Linked, HeldBy, HoldersOf;
      if request.identity.botId != botId {
        return Err(WrongBot);
      }
      var id := request.identity;
      OwnerHolds(View(), calls, id, task);
      if id in requests && requests[id].owner == Some(task) {
        return Err(Recursive);
      }
      Join(c, task, request);
      return Ok(());
    }

    /** The heart of `_serialize_request`: the slot of the identity, created if there is none, gains a user. */
    method Join(c: nat, task: nat, request: Request)
      requires Valid() && c !in calls
      modifies this`requests, this`calls, set id | id in requests :: requests[id]
      ensures Valid() && c in calls && calls == old(calls)[c := Call(task, request, calls[c].slot, Waiting)]
      ensures calls[c].slot.locked == (request.identity in old(requests) && old(requests[request.identity].locked))
      ensures forall id :: id in old(requests) ==> id in requests && requests[id] == old(requests)[id]
      ensures request.identity in requests && calls[c].slot == requests[request.identity]
      ensures forall id :: id in requests && id !in old(requests) ==> fresh(requests[id])
    {
      hide Protocol, Counted, Linked, HeldBy, HoldersOf;
      var id := request.identity;
      ghost var before := View();
      if id !in requests {
        var created := new RequestSlot();
        requests := requests[id := created];
        SlotIsNew(old(requests), calls, id, created);
      }
      var slot := requests[id];
      LinkedDistinct(requests, calls, id);
      slot.users := slot.users + 1;
      CountEnter(before, View(), calls, c, Call(task, request, slot, Waiting));
      LinkEnter(requests, calls, c, Call(task, request, slot, Waiting));
      EnterKeeps(journal, trail, definitions, calls, c, Call(task, request, slot, Waiting));
      calls := calls[c := Call(task, request, slot, Waiting)];
    }

    /** The lock is free: the dispatch takes it and becomes its owner. */
    method Acquire(c: nat)
      requires Valid() && c in calls && calls[c].point.Waiting? && !calls[c].slot.locked
      modifies this`calls, calls[c].slot
      ensures Valid() && calls == old(calls)[c := old(calls)[c].(point := Looking)]
      ensures requests == old(requests)
    {
      hide Protocol, Counted, Linked, CallsOn, HoldersOf, Holds, Replayable;
      var id, slot := calls[c].request.identity, calls[c].slot;
      LinkedAt(requests, calls, c);
      LinkedDistinct(requests, calls, id);
      ghost var before := View();
      slot.locked := true;
      slot.owner := Some(calls[c].task);
      CountAcquire(before, View(), calls, c);
      LinkMove(requests, calls, c, Looking);
      LookingKeeps(journal, trail, definitions, calls, c);
      calls := calls[c := calls[c].(point := Looking)];
    }

    /** The finally clauses: the lock is released, and the slot of the last user is dropped. */
    method Leave(c: nat)
      requires Valid() && c in calls
      modifies this`calls, this`requests, calls[c].slot
      ensures Valid() && calls == old(calls) - {c}
      ensures forall id :: id in requests ==> id in old(requests) && requests[id] == old(requests)[id]
    {
      hide Protocol, Counted, Linked, CallsOn, HoldersOf, Holds, Replayable;
      var id, slot := calls[c].request.identity, calls[c].slot;
      LinkedAt(requests, calls, c);
      LinkedDistinct(requests, calls, id);
      ghost var before := View();
      CountPositive(before, calls, c);
      slot.Give(Holds(calls[c]));
      LeaveKeeps(journal, trail, definitions, calls, c);
      LinkLeave(requests, calls, c);
      CountLeave(before, View(), calls, c);
      calls := calls - {c};
      if slot.users == 0 {
        LinkDrop(requests, calls, id);
        ghost var kept := View();
        requests := requests - {id};
        assert View() == kept - {id};
      }
    }

    /** The holder of an identity's lock moves on and writes what it has to say. */
    method Move(c: nat, point: Point, journal': Journal, ghost trail': Trail)
      requires Valid() && c in calls && Holds(calls[c]) && !point.Waiting?
      requires forall id :: id != calls[c].request.identity ==> Agree(journal, trail, journal', trail', id)
      requires Lawful(journal', trail', definitions, calls[c].request.identity)
      requires PointOk(journal', trail', definitions, calls[c].request, point)
      modifies this`calls, this`journal, this`trail
      ensures Valid() && calls == old(calls)[c := old(calls)[c].(point := point)]
      ensures journal == journal' && trail == trail'
    {
      hide Lawful, PointOk, Agree, Protocol, Counted, Linked;
      SoleHolder(View(), calls, c);
      StepKeeps(journal, trail, journal', trail', definitions, calls, c, point);
      CountMove(View(), calls, c, point);
      LinkMove(requests, calls, c, point);
      calls, journal, trail := calls[c := calls[c].(point := point)], journal', trail';
    }

    // -------------------------------------------------------------- the segments under the lock

    /** `definition`: the target resolves to a registered handler. */
    predicate CanHandle(target: Target)
      reads this`catalog, this`handlers
    {
      target in catalog && catalog[target] in handlers
    }

    /** Reads the request commit; without one, validates and freezes the target. */
    method Look(c: nat, validArguments: bool, message: string)
      requires Valid() && c in calls && calls[c].point.Looking?
      modifies this`calls, this`journal, this`trail
      ensures Valid() && journal == old(journal) && trail == old(trail)
      ensures var request := old(calls)[c].request;
              calls == old(calls)[c := old(calls)[c].(point :=
                if Requested(request.identity) in journal then Comparing(journal[Requested(request.identity)])
                else if CanHandle(request.target) && request.kind == definitions(catalog[request.target]).kind && validArguments
                then Recording(Some(catalog[request.target]), OpResult(Failed, message, ""))
                else Recording(None, OpResult(Failed, message, "")))]
    {
      hide Table, Agree, HonestFailure, HasBegun, Begins;
      ProtocolAt(journal, trail, definitions, calls, c);
      SameState(journal, trail);
      var request := calls[c].request;
      var point;
      if Requested(request.identity) in journal {
        point := Comparing(journal[Requested(request.identity)]);
      } else if CanHandle(request.target) && request.kind == definitions(catalog[request.target]).kind && validArguments {
        point := Recording(Some(catalog[request.target]), OpResult(Failed, message, ""));
      } else {
        point := Recording(None, OpResult(Failed, message, ""));
      }
      Move(c, point, journal, trail);
    }

    /** The write-ahead commit: before any effect. The journal never refuses it here. */
    method RecordRequest(c: nat)
      requires Valid() && c in calls && calls[c].point.Recording?
      modifies this`calls, this`journal, this`trail
      ensures Valid() && trail == old(trail)
      ensures var call := old(calls)[c];
              var key, fact := Requested(call.request.identity), RequestFact(call.request, call.point.resolved);
              && Append(old(journal), key, fact) == Some(journal) && key !in old(journal)
              && calls == old(calls)[c := call.(point := Recorded(call.point.resolved, call.point.rejected))]
    {
      hide Table, Agree;
      ProtocolAt(journal, trail, definitions, calls, c);
      var call := calls[c];
      var key, fact := Requested(call.request.identity), RequestFact(call.request, call.point.resolved);
      var written := Append(journal, key, fact);
      WriteElsewhere(journal, trail, written.value, key, fact);
      Move(c, Recorded(call.point.resolved, call.point.rejected), written.value, trail);
    }

    /** Starts the handler, or settles at once: rejected in validation, or past the deadline. */
    method Proceed(c: nat, expired: bool)
      requires Valid() && c in calls && calls[c].point.Recorded?
      modifies this`calls, this`journal, this`trail
      ensures Valid() && journal == old(journal)
      ensures ResultOf(old(calls)[c].request.identity) !in journal
      ensures var call := old(calls)[c];
              if call.point.resolved.None? then
                trail == old(trail) && calls == old(calls)[c := call.(point := Settling(call.point.rejected))]
              else if call.request.deadline.Some? && expired then
                trail == old(trail) && calls == old(calls)[c := call.(point := Settling(EXPIRED))]
              else
                && trail == old(trail).(begun := old(trail).begun + [Begin(call.request.identity, call.point.resolved.value)])
                && calls == old(calls)[c := call.(point := Executing(call.point.resolved.value))]
    {
      hide Table;
      var call := calls[c];
      ProtocolAt(journal, trail, definitions, calls, c);
      if call.point.resolved.None? || (call.request.deadline.Some? && expired) {
        SameState(journal, trail);
        Move(c, Settling(if call.point.resolved.None? then call.point.rejected else EXPIRED), journal, trail);
      } else {
        BeginHandler(c, call.point.resolved.value);
      }
    }

    /** `execute` is entered. For what must not be replayed this is the first time. */
    method BeginHandler(c: nat, ref: Ref)
      requires Valid() && c in calls && Holds(calls[c])
      requires RequestedAs(journal, calls[c].request, Some(ref)) && ResultOf(calls[c].request.identity) !in journal
      requires HasBegun(trail, calls[c].request.identity) ==> Replayable(definitions(ref))
      modifies this`calls, this`journal, this`trail
      ensures Valid() && journal == old(journal)
      ensures trail == old(trail).(begun := old(trail).begun + [Begin(old(calls)[c].request.identity, ref)])
      ensures calls == old(calls)[c := old(calls)[c].(point := Executing(ref))]
    {
      hide Table, Agree, HonestFailure, Begins;
      var id := calls[c].request.identity;
      ProtocolAt(journal, trail, definitions, calls, c);
      ghost var after := trail.(begun := trail.begun + [Begin(id, ref)]);
      BeginElsewhere(journal, trail, after, Begin(id, ref));
      assert Begin(id, ref) in after.begun;
      Move(c, Executing(ref), journal, after);
    }

    /** The handler returned a result, or raised, timed out or returned something else (None). */
    method HandlerReturns(c: nat, outcome: Option<OpResult>, message: string)
      requires Valid() && c in calls && calls[c].point.Executing?
      modifies this`calls, this`journal, this`trail
      ensures Valid() && journal == old(journal)
      ensures var call := old(calls)[c];
              && calls == old(calls)[c := call.(point := Settling(
                   if outcome.Some? then outcome.value
                   else OpResult(if definitions(call.point.ref).kind.Command? then Unknown else Failed, message, "")))]
              && trail == if outcome.None? then old(trail)
                          else old(trail).(reports := old(trail).reports + [Report(call.request.identity, outcome.value.status)])
    {
      hide Table, HasBegun, Begins;
      var call := calls[c];
      ProtocolAt(journal, trail, definitions, calls, c);
      if outcome.Some? {
        ghost var after := trail.(reports := trail.reports + [Report(call.request.identity, outcome.value.status)]);
        ReportElsewhere(journal, trail, after, Report(call.request.identity, outcome.value.status));
        ReportLawful(journal, trail, after, definitions, Report(call.request.identity, outcome.value.status));
        assert HasReported(after, call.request.identity, outcome.value.status);
        Move(c, Settling(outcome.value), journal, after);
      } else {
        SameState(journal, trail);
        Move(c, Settling(OpResult(if definitions(call.point.ref).kind.Command? then Unknown else Failed, message, "")), journal, trail);
      }
    }

    /** The receipt is written; again the journal cannot refuse. */
    method RecordResult(c: nat)
      requires Valid() && c in calls && calls[c].point.Settling?
      modifies this`calls, this`journal, this`trail
      ensures Valid() && trail == old(trail)
      ensures var call := old(calls)[c];
              var key, fact := ResultOf(call.request.identity), ResultFact(call.point.result);
              && Append(old(journal), key, fact) == Some(journal) && key !in old(journal)
              && calls == old(calls)[c := call.(point := Settled(call.point.result))]
    {
      hide Table, Agree, HasBegun, Begins;
      ProtocolAt(journal, trail, definitions, calls, c);
      var call := calls[c];
      var key, fact := ResultOf(call.request.identity), ResultFact(call.point.result);
      var written := Append(journal, key, fact);
      WriteElsewhere(journal, trail, written.value, key, fact);
      Move(c, Settled(call.point.result), written.value, trail);
    }

    /** The dispatch returns to its caller. */
    method Finish(c: nat) returns (result: OpResult)
      requires Valid() && c in calls && calls[c].point.Settled?
      modifies this`calls, this`journal, this`trail, this`requests, calls[c].slot
      ensures forall id :: id in requests ==> id in old(requests) && requests[id] == old(requests)[id]
      ensures Valid() && journal == old(journal) && calls == old(calls) - {c}
      ensures result == old(calls)[c].point.result
      ensures trail == old(trail).(answers := old(trail).answers + [Answer(old(calls)[c].request, result)])
    {
      hide Table, Agree, HasBegun, Begins, HonestFailure;
      ProtocolAt(journal, trail, definitions, calls, c);
      result := calls[c].point.result;
      Tell(c, result);
      Leave(c);
    }

    method Tell(c: nat, result: OpResult)
      requires Valid() && c in calls && Holds(calls[c])
      requires RequestedBy(journal, calls[c].request)
      requires ResultOf(calls[c].request.identity) in journal && journal[ResultOf(calls[c].request.identity)] == ResultFact(result)
      modifies this`calls, this`journal, this`trail
      ensures Valid() && journal == old(journal) && calls == old(calls)
      ensures trail == old(trail).(answers := old(trail).answers + [Answer(calls[c].request, result)])
    {
      hide Table, Agree, HasBegun, Begins, HonestFailure;
      ProtocolAt(journal, trail, definitions, calls, c);
      ghost var answer := Answer(calls[c].request, result);
      ghost var after := trail.(answers := trail.answers + [answer]);
      AnswerElsewhere(journal, trail, after, answer);
      TellLawful(journal, trail, definitions, answer);
      TellPoint(journal, trail, definitions, answer, calls[c].point);
      Move(c, calls[c].point, journal, after);
      assert calls == old(calls);
    }

    /** A retry under a used identity with other content is refused. */
    method Compare(c: nat) returns (r: Result<(), Error>)
      requires Valid() && c in calls && calls[c].point.Comparing?
      modifies this`calls, this`journal, this`trail, this`requests, calls[c].slot
      ensures forall id :: id in requests ==> id in old(requests) && requests[id] == old(requests)[id]
      ensures Valid() && journal == old(journal) && trail == old(trail)
      ensures r.Ok? <==> old(calls)[c].point.previous.RequestFact? && old(calls)[c].point.previous.request == old(calls)[c].request
      ensures r.Ok? ==> calls == old(calls)[c := old(calls)[c].(point := Fetching(old(calls)[c].point.previous))]
      ensures r.Err? ==> r.error == IdentityReused && calls == old(calls) - {c}
    {
      hide Table, Agree, HasBegun, Begins, HonestFailure;
      ProtocolAt(journal, trail, definitions, calls, c);
      var previous := calls[c].point.previous;
      if previous.request != calls[c].request {
        Leave(c);
        return Err(IdentityReused);
      }
      SameState(journal, trail);
      Move(c, Fetching(previous), journal, trail);
      return Ok(());
    }

    /** `_resume`: the stored receipt if there is one; otherwise the frozen target decides. */
    method Fetch(c: nat, expired: bool) returns (r: Result<Option<OpResult>, Error>)
      requires Valid() && c in calls && calls[c].point.Fetching?
      modifies this`calls, this`journal, this`trail, this`requests, calls[c].slot
      ensures forall id :: id in requests ==> id in old(requests) && requests[id] == old(requests)[id]
      ensures Valid() && journal == old(journal)
      ensures var call := old(calls)[c];
              var resolved := call.point.previous.resolved;
              if ResultOf(call.request.identity) in journal then
                && r.Ok? && r.value.Some? && journal[ResultOf(call.request.identity)] == ResultFact(r.value.value)
                && calls == old(calls) - {c}
                && trail == old(trail).(answers := old(trail).answers + [Answer(call.request, r.value.value)])
              else if resolved.None? then
                r == Ok(None) && trail == old(trail) && calls == old(calls)[c := call.(point := Settling(ABANDONED))]
              else if resolved.value !in handlers then
                r == Err(NoHandler) && trail == old(trail) && calls == old(calls) - {c}
              else if !Replayable(definitions(resolved.value)) then
                r == Ok(None) && trail == old(trail) && calls == old(calls)[c := call.(point := Settling(UNCONFIRMED))]
              else if call.request.deadline.Some? && expired then
                r == Ok(None) && trail == old(trail) && calls == old(calls)[c := call.(point := Settling(EXPIRED))]
              else
                && r == Ok(None) && calls == old(calls)[c := call.(point := Executing(resolved.value))]
                && trail == old(trail).(begun := old(trail).begun + [Begin(call.request.identity, resolved.value)])
    {
      hide Table, Agree, Begins;
      ProtocolAt(journal, trail, definitions, calls, c);
      var call := calls[c];
      var id, resolved := call.request.identity, call.point.previous.resolved;
      if ResultOf(id) in journal {
        var receipt := journal[ResultOf(id)].result;
        Tell(c, receipt);
        Leave(c);
        return Ok(Some(receipt));
      }
      SameState(journal, trail);
      if resolved.None? {
        Move(c, Settling(ABANDONED), journal, trail);
        return Ok(None);
      }
      if resolved.value !in handlers {
        Leave(c);
        return Err(NoHandler);
      }
      if !Replayable(definitions(resolved.value)) {
        Move(c, Settling(UNCONFIRMED), journal, trail);
        return Ok(None);
      }
      if call.request.deadline.Some? && expired {
        Move(c, Settling(EXPIRED), journal, trail);
        return Ok(None);
      }
      BeginHandler(c, resolved.value);
      return Ok(None);
    }

    // -------------------------------------------------------------- one dispatch without interruption

    /** The target a new request is frozen to, if this process can handle it as it was asked for. */
    ghost function Frozen(request: Request, w: Circumstances): Option<Ref>
      reads this`catalog, this`handlers
    {
      if w.valid && CanHandle(request.target) && definitions(catalog[request.target]).kind == request.kind
      then Some(catalog[request.target]) else None
    }

    /** A new request is recorded with the target it is frozen to, and the handler begins once unless the
        request was rejected or comes too late. The answer is the handler's, and it is recorded. */
    ghost predicate Anew(j: Journal, t: Trail, request: Request, w: Circumstances, r: Result<OpResult, Error>)
      reads this`catalog, this`handlers, this`journal, this`trail
    {
      var id, resolved := request.identity, Frozen(request, w);
      && r.Ok?
      && journal == j[Requested(id) := RequestFact(request, resolved)][ResultOf(id) := ResultFact(r.value)]
      && r.value == (if resolved.None? then OpResult(Failed, w.objection, "") else if Late(request, w) then EXPIRED
                     else Word(definitions(resolved.value), w))
      && trail == Told(t, request, if Late(request, w) then None else resolved, w, r.value)
    }

    /** A retry gets the stored receipt. Without one the frozen target decides: only what may be replayed
        and is not too late begins again. */
    ghost predicate Again(j: Journal, t: Trail, request: Request, w: Circumstances, r: Result<OpResult, Error>)
      requires Requested(request.identity) in j && j[Requested(request.identity)].RequestFact?
      reads this`handlers, this`journal, this`trail
    {
      var id := request.identity;
      var resolved := j[Requested(id)].resolved;
      if j[Requested(id)].request != request then
        r == Err(IdentityReused) && journal == j && trail == t
      else if ResultOf(id) in j then
        r.Ok? && j[ResultOf(id)] == ResultFact(r.value) && journal == j && trail == Told(t, request, None, w, r.value)
      else if resolved.Some? && resolved.value !in handlers then
        r == Err(NoHandler) && journal == j && trail == t
      else
        && r.Ok? && journal == j[ResultOf(id) := ResultFact(r.value)]
        && r.value == (if resolved.None? then ABANDONED else if !Replayable(definitions(resolved.value)) then UNCONFIRMED
                       else if Late(request, w) then EXPIRED else Word(definitions(resolved.value), w))
        && trail == Told(t, request, if resolved.None? || !Replayable(definitions(resolved.value)) || Late(request, w) then None else resolved,
                         w, r.value)
    }

    /** A dispatch that nobody interrupts, and for whose identity no other holds the lock, from its first step
        to its answer, in any state of any run. */
    method Dispatch(c: nat, task: nat, request: Request, w: Circumstances) returns (r: Result<OpResult, Error>)
      requires Valid() && c !in calls && HoldersOf(calls, request.identity) == {}
      modifies this`requests, this`calls, this`journal, this`trail, Slots()
      ensures Valid() && calls == old(calls) && fresh(Slots() - old(Slots()))
      ensures request.identity.botId != botId ==> r == Err(WrongBot) && journal == old(journal) && trail == old(trail)
      ensures request.identity.botId == botId ==>
                if Requested(request.identity) !in old(journal) then Anew(old(journal), old(trail), request, w, r)
                else old(journal)[Requested(request.identity)].RequestFact? && Again(old(journal), old(trail), request, w, r)
    {
      hide Table, Protocol, Lawful, PointOk, Anew, Again, HoldersOf;
      var id := request.identity;
      NobodyHolds(calls, id, task);
      var entered := Enter(c, task, request);
      if entered.Err? {
        return Err(WrongBot);
      }
      Acquire(c);
      if Requested(id) in journal {
        RecordedFact(journal, trail, definitions, calls, id);
      }
      Look(c, w.valid, w.objection);
      if Requested(id) in journal {
        r := Resume(c, w);
      } else {
        r := Carry(c, w);
      }
      assert calls == old(calls);
    }

    /** Idempotence across a crash: after an answer the same request gets the same answer, whatever the new
        process registers and whatever the circumstances are; nothing is begun and nothing is recorded. */
    method DispatchAgain(request: Request, w: Circumstances, catalog: map<Target, Ref>, handlers: set<Ref>, later: Circumstances)
      returns (first: Result<OpResult, Error>, second: Result<OpResult, Error>, ghost j: Journal, ghost t: Trail)
      requires Valid() && calls == map[]
      modifies this, Slots()
      ensures Valid() && calls == map[] && (first.Ok? ==> second == first)
      ensures first.Ok? ==> ResultOf(request.identity) in j && j[ResultOf(request.identity)] == ResultFact(first.value)
      ensures first.Ok? ==> journal == j && trail == t.(answers := t.answers + [Answer(request, first.value)])
      ensures request.identity.botId == botId && Requested(request.identity) !in old(journal) ==> first.Ok?
    {
      hide Table, Protocol, Lawful, PointOk, HoldersOf, Word;
      IdleHolds(calls, request.identity);
      first := Dispatch(0, 0, request, w);
      j, t := journal, trail;
      Crash(catalog, handlers);
      IdleHolds(calls, request.identity);
      second := Dispatch(0, 0, request, later);
    }

    /** A dispatch that is past the decision runs to its answer. */
    method Conclude(c: nat, w: Circumstances) returns (result: OpResult)
      requires Valid() && c in calls && (calls[c].point.Executing? || calls[c].point.Settling?)
      modifies this`calls, this`journal, this`trail, this`requests, calls[c].slot
      ensures forall id :: id in requests ==> id in old(requests) && requests[id] == old(requests)[id]
      ensures Valid() && calls == old(calls) - {c}
      ensures var call := old(calls)[c];
              && result == (if call.point.Settling? then call.point.result else Word(definitions(call.point.ref), w))
              && journal == old(journal)[ResultOf(call.request.identity) := ResultFact(result)]
              && trail == old(trail).(
                   reports := old(trail).reports + (if call.point.Executing? && w.outcome.Some?
                                                    then [Report(call.request.identity, w.outcome.value.status)] else []),
                   answers := old(trail).answers + [Answer(call.request, result)])
    {
      hide Table, Protocol, Lawful, PointOk;
      if calls[c].point.Executing? {
        HandlerReturns(c, w.outcome, w.fault);
      }
      RecordResult(c);
      result := Finish(c);
    }

    method Carry(c: nat, w: Circumstances) returns (r: Result<OpResult, Error>)
      requires Valid() && c in calls && Requested(calls[c].request.identity) !in journal
      requires calls[c].point == Recording(Frozen(calls[c].request, w), OpResult(Failed, w.objection, ""))
      modifies this`calls, this`journal, this`trail, this`requests, calls[c].slot
      ensures forall id :: id in requests ==> id in old(requests) && requests[id] == old(requests)[id]
      ensures Valid() && calls == old(calls) - {c}
      ensures Anew(old(journal), old(trail), old(calls)[c].request, w, r)
    {
      hide Table, Protocol, Lawful, PointOk, Word;
      RecordRequest(c);
      Proceed(c, w.expired);
      var result := Conclude(c, w);
      return Ok(result);
    }

    method Resume(c: nat, w: Circumstances) returns (r: Result<OpResult, Error>)
      requires Valid() && c in calls && Requested(calls[c].request.identity) in journal
      requires journal[Requested(calls[c].request.identity)].RequestFact?
      requires calls[c].point == Comparing(journal[Requested(calls[c].request.identity)])
      modifies this`calls, this`journal, this`trail, this`requests, calls[c].slot
      ensures forall id :: id in requests ==> id in old(requests) && requests[id] == old(requests)[id]
      ensures Valid() && calls == old(calls) - {c}
      ensures Again(old(journal), old(trail), old(calls)[c].request, w, r)
    {
      hide Table, Protocol, Lawful, PointOk, Word;
      var compared := Compare(c);
      if compared.Err? {
        return Err(compared.error);
      }
      var fetched := Fetch(c, w.expired);
      if fetched.Err? {
        return Err(fetched.error);
      }
      if fetched.value.Some? {
        return Ok(fetched.value.value);
      }
      var result := Conclude(c, w);
      return Ok(result);
    }

    // -------------------------------------------------------------- whole runs

    /** The slots this process may write. */
    ghost function Slots(): set<RequestSlot>
      reads this`requests
    {
      set id | id in requests :: requests[id]
    }

    /** One step of any run; a step that is not enabled changes nothing. */
    method Do(step: Step)
      requires Valid()
      modifies this, Slots()
      ensures Valid() && fresh(Slots() - old(Slots()))
      ensures Later(old(journal), old(trail), journal, trail)
    {
      hide Table, Protocol;
      LaterSame(journal, trail);
      match step {
        case StepEnter(c, task, request) =>
          if c !in calls {
            var _ := Enter(c, task, request);
          }
        case StepCrash(catalog, handlers) => Crash(catalog, handlers);
        case StepMove(c, choice) =>
          if c in calls {
            LinkedSlot(c);
            MoveOn(c, choice);
          }
      }
    }

    /** A segment that neither takes nor gives back the lock. */
    method Inside(c: nat, choice: Choice)
      requires Valid() && c in calls
      requires var point := calls[c].point;
               point.Looking? || point.Recording? || point.Recorded? || point.Executing? || point.Settling?
      modifies this`calls, this`journal, this`trail
      ensures Valid() && Later(old(journal), old(trail), journal, trail)
    {
      hide Table, Protocol;
      LaterSame(journal, trail);
      match calls[c].point {
        case Looking => Look(c, choice.flag, choice.message);
        case Recording(_, _) => RecordRequest(c);
        case Recorded(_, _) => Proceed(c, choice.flag);
        case Executing(_) => HandlerReturns(c, choice.outcome, choice.message);
        case Settling(_) => RecordResult(c);
      }
      BeginsAppend(old(trail.begun), trail.begun);
    }

    /** A segment that may take or give back the lock. */
    method Outside(c: nat, choice: Choice)
      requires Valid() && c in calls && calls[c].slot in Slots()
      requires var point := calls[c].point;
               point.Waiting? || point.Comparing? || point.Fetching? || point.Settled?
      modifies this`calls, this`journal, this`trail, this`requests, Slots()
      ensures Valid() && Slots() <= old(Slots())
      ensures Later(old(journal), old(trail), journal, trail)
    {
      hide Table, Protocol;
      LaterSame(journal, trail);
      match calls[c].point {
        case Waiting => if !calls[c].slot.locked { Acquire(c); }
        case Comparing(_) => var _ := Compare(c);
        case Fetching(_) => var _ := Fetch(c, choice.flag);
        case Settled(_) => var _ := Finish(c);
      }
      BeginsAppend(old(trail.begun), trail.begun);
    }

    /** The next segment of one dispatch, or its interruption. */
    method MoveOn(c: nat, choice: Choice)
      requires Valid() && c in calls && calls[c].slot in Slots()
      modifies this`calls, this`journal, this`trail, this`requests, Slots()
      ensures Valid() && Slots() <= old(Slots())
      ensures Later(old(journal), old(trail), journal, trail)
    {
      hide Table, Protocol, Later;
      LaterSame(journal, trail);
      if choice.interrupted {
        Leave(c);
        return;
      }
      match calls[c].point {
        case Waiting => Outside(c, choice);
        case Comparing(_) => Outside(c, choice);
        case Fetching(_) => Outside(c, choice);
        case Settled(_) => Outside(c, choice);
        case _ => Inside(c, choice);
      }
    }

    lemma LinkedSlot(c: nat)
      requires Valid() && c in calls
      ensures calls[c].slot in Slots()
    {}

    /** Every run from any reachable state: the journal only grows, once an identity has its result no
        handler is begun for it again, and a FAILED receipt of a reliable operation means that its
        handler said so or never began. */
    method Perform(steps: seq<Step>)
      requires Valid()
      modifies this, Slots()
      ensures Valid() && Later(old(journal), old(trail), journal, trail)
      ensures forall id :: Misleads(journal, trail, id) ==> RequestedUnreliably(journal, definitions, id)
    {
      hide Table, Protocol, Later, Misleads, RequestedUnreliably;
      LaterSame(journal, trail);
      for i := 0 to |steps|
        invariant Valid() && fresh(Slots() - old(Slots()))
        invariant Later(old(journal), old(trail), journal, trail)
      {
        ghost var j, t := journal, trail;
        Do(steps[i]);
        LaterTrans(old(journal), old(trail), j, t, journal, trail);
      }
      forall id | Misleads(journal, trail, id) ensures RequestedUnreliably(journal, definitions, id) {
        MisleadsOnlyIf(journal, trail, definitions, calls, id);
      }
    }
  }

  // ---------------------------------------------------------------- what the promise does not cover

  /** And the other way round: in any state of any run, every request of this Bot that was not made
      before, that its process can handle and that is not reliable, can end with a receipt that
      misleads. A query is failed by an exception of its handler; a retry-safe command is interrupted,
      and when it is dispatched again its deadline has passed. */
  method UnreliableCanMislead(r: OperationRegistry, request: Request)
    requires r.Valid() && request.identity.botId == r.botId && Requested(request.identity) !in r.journal
    requires r.CanHandle(request.target) && request.kind == r.definitions(r.catalog[request.target]).kind
    requires !Reliable(r.definitions(r.catalog[request.target]), request)
    modifies r
    ensures r.Valid() && Misleads(r.journal, r.trail, request.identity)
    ensures Requested(request.identity) in r.journal
    ensures r.journal[Requested(request.identity)] == RequestFact(request, Some(old(r.catalog[request.target])))
  {
    hide OperationRegistry.Table, Protocol, CallsOn, Lawful, PointOk, Begins;
    UnheardOf(r.journal, r.trail, r.definitions, r.calls, request.identity);
    r.Crash(r.catalog, r.handlers);
    if request.kind.Query? {
      QueryRaises(r, request);
    } else {
      StartAndCrash(r, request);
      ResumeTooLate(r, request);
    }
    assert Begin(request.identity, r.catalog[request.target]) in r.trail.begun;
    assert r.trail.reports == old(r.trail.reports);
    assert !HasReported(old(r.trail), request.identity, Failed);
  }

  lemma UnheardOf(journal: Journal, trail: Trail, definitions: Ref -> Definition, calls: map<nat, Call>, id: Identity)
    requires Protocol(journal, trail, definitions, calls) && Requested(id) !in journal
    ensures ResultOf(id) !in journal && forall s :: !HasReported(trail, id, s)
  {
    hide PointOk, Begins;
    assert Lawful(journal, trail, definitions, id);
  }

  /** A fresh request goes through to its handler. */
  method Start(r: OperationRegistry, request: Request)
    requires r.Valid() && r.calls == map[] && r.requests == map[]
    requires request.identity.botId == r.botId && Requested(request.identity) !in r.journal
    requires r.CanHandle(request.target) && request.kind == r.definitions(r.catalog[request.target]).kind
    modifies r
    ensures r.Valid() && r.catalog == old(r.catalog) && r.handlers == old(r.handlers)
    ensures 0 in r.calls && r.calls[0].request == request && r.calls[0].point == Executing(r.catalog[request.target])
    ensures r.journal == old(r.journal)[Requested(request.identity) := RequestFact(request, Some(r.catalog[request.target]))]
    ensures r.trail == old(r.trail).(begun := old(r.trail).begun + [Begin(request.identity, r.catalog[request.target])])
  {
    hide OperationRegistry.Table, Protocol, CallsOn, Lawful, PointOk;
    assert !HeldBy(r.calls, request.identity, 0);
    var entered := r.Enter(0, 0, request);
    r.Acquire(0);
    r.Look(0, true, "");
    r.RecordRequest(0);
    r.Proceed(0, false);
  }

  method QueryRaises(r: OperationRegistry, request: Request)
    requires r.Valid() && r.calls == map[] && r.requests == map[]
    requires request.identity.botId == r.botId && Requested(request.identity) !in r.journal
    requires r.CanHandle(request.target) && request.kind == r.definitions(r.catalog[request.target]).kind && request.kind.Query?
    modifies r
    ensures r.Valid() && r.catalog == old(r.catalog)
    ensures ResultOf(request.identity) in r.journal && Requested(request.identity) in r.journal
    ensures r.journal[ResultOf(request.identity)] == ResultFact(OpResult(Failed, "", ""))
    ensures r.journal[Requested(request.identity)] == RequestFact(request, Some(r.catalog[request.target]))
    ensures r.trail == old(r.trail).(begun := old(r.trail).begun + [Begin(request.identity, r.catalog[request.target])])
  {
    hide OperationRegistry.Table, Protocol, CallsOn, Lawful, PointOk;
    Start(r, request);
    r.HandlerReturns(0, None, "");
    r.RecordResult(0);
  }

  method StartAndCrash(r: OperationRegistry, request: Request)
    requires r.Valid() && r.calls == map[] && r.requests == map[]
    requires request.identity.botId == r.botId && Requested(request.identity) !in r.journal
    requires r.CanHandle(request.target) && request.kind == r.definitions(r.catalog[request.target]).kind
    modifies r
    ensures r.Valid() && r.calls == map[] && r.requests == map[]
    ensures r.catalog == old(r.catalog) && r.handlers == old(r.handlers)
    ensures r.journal == old(r.journal)[Requested(request.identity) := RequestFact(request, Some(r.catalog[request.target]))]
    ensures r.trail == old(r.trail).(begun := old(r.trail).begun + [Begin(request.identity, r.catalog[request.target])])
  {
    hide OperationRegistry.Table, Protocol, CallsOn, Lawful, PointOk;
    Start(r, request);
    r.Crash(r.catalog, r.handlers);
  }

  method ResumeTooLate(r: OperationRegistry, request: Request)
    requires r.Valid() && r.calls == map[] && r.requests == map[]
    requires request.identity.botId == r.botId && request.deadline.Some? && r.CanHandle(request.target)
    requires ResultOf(request.identity) !in r.journal && Requested(request.identity) in r.journal
    requires r.journal[Requested(request.identity)] == RequestFact(request, Some(r.catalog[request.target]))
    requires Replayable(r.definitions(r.catalog[request.target]))
    modifies r
    ensures r.Valid() && r.trail == old(r.trail) && r.catalog == old(r.catalog)
    ensures r.journal == old(r.journal)[ResultOf(request.identity) := ResultFact(EXPIRED)]
  {
    hide OperationRegistry.Table, Protocol, CallsOn, Lawful, PointOk;
    assert !HeldBy(r.calls, request.identity, 1);
    var entered := r.Enter(1, 1, request);
    r.Acquire(1);
    r.Look(1, true, "");
    var compared := r.Compare(1);
    var fetched := r.Fetch(1, true);
    r.RecordResult(1);
  }

  // ---------------------------------------------------------------- the lock table as values

  datatype SlotView = SlotView(users: nat, locked: bool, owner: Option<nat>)

  /** Every dispatch shares the one slot of its identity; different identities have different slots. */
  ghost predicate Linked(requests: map<Identity, RequestSlot>, calls: map<nat, Call>) {
    && (forall c :: c in calls ==> calls[c].request.identity in requests && requests[calls[c].request.identity] == calls[c].slot)
    && (forall a, b :: a in requests && b in requests && a != b ==> requests[a] != requests[b])
  }

  /** A slot counts its dispatches, exists only while there are any, and is locked and owned exactly
      when one of them is past the wait. */
  ghost predicate Counted(view: map<Identity, SlotView>, calls: map<nat, Call>) {
    && (forall c :: c in calls ==> calls[c].request.identity in view)
    && (forall id :: id in view ==> view[id].users == |CallsOn(calls, id)| > 0 && OwnedOk(view[id], calls, id))
  }

  ghost predicate OwnedOk(slot: SlotView, calls: map<nat, Call>, id: Identity) {
    if slot.locked then exists c :: HoldersOf(calls, id) == {c} && slot.owner == Some(calls[c].task)
    else HoldersOf(calls, id) == {} && slot.owner == None
  }

  ghost predicate HeldBy(calls: map<nat, Call>, id: Identity, task: nat) {
    exists d :: d in HoldersOf(calls, id) && calls[d].task == task
  }

  lemma OwnerHolds(view: map<Identity, SlotView>, calls: map<nat, Call>, id: Identity, task: nat)
    requires Counted(view, calls)
    ensures id in view && view[id].owner == Some(task) <==> HeldBy(calls, id, task)
    ensures id in view ==> (view[id].locked <==> exists d :: d in calls && d in HoldersOf(calls, id))
    ensures id !in view ==> forall d :: d in calls ==> d !in HoldersOf(calls, id)
  {
    if id in view && view[id].locked {
      var c :| HoldersOf(calls, id) == {c} && view[id].owner == Some(calls[c].task);
      assert c in HoldersOf(calls, id);
    }
  }

  lemma IdleHolds(calls: map<nat, Call>, id: Identity)
    requires calls == map[]
    ensures HoldersOf(calls, id) == {}
  {}

  lemma NobodyHolds(calls: map<nat, Call>, id: Identity, task: nat)
    requires HoldersOf(calls, id) == {}
    ensures !HeldBy(calls, id, task)
  {}

  /** Mutual exclusion: past the wait there is one dispatch of an identity. */
  lemma SoleHolder(view: map<Identity, SlotView>, calls: map<nat, Call>, c: nat)
    requires Counted(view, calls) && c in calls && Holds(calls[c])
    ensures HoldersOf(calls, calls[c].request.identity) == {c} && view[calls[c].request.identity].locked
    ensures forall d :: d in calls && d != c && calls[d].request.identity == calls[c].request.identity ==> calls[d].point.Waiting?
  {
    var id := calls[c].request.identity;
    assert c in HoldersOf(calls, id);
    var h :| HoldersOf(calls, id) == {h} && view[id].owner == Some(calls[h].task);
    forall d | d in calls && d != c && calls[d].request.identity == id ensures calls[d].point.Waiting? {
      assert d !in HoldersOf(calls, id);
    }
  }

  lemma CountEnter(before: map<Identity, SlotView>, after: map<Identity, SlotView>, calls: map<nat, Call>, c: nat, call: Call)
    requires Counted(before, calls) && c !in calls && call.point.Waiting?
    requires var id := call.request.identity;
             after == before[id := if id in before then before[id].(users := before[id].users + 1) else SlotView(1, false, None)]
    ensures Counted(after, calls[c := call])
  {
    var id := call.request.identity;
    if id !in before {
      assert CallsOn(calls, id) == {};
      assert HoldersOf(calls, id) == {};
    }
    forall other | other in after
      ensures after[other].users == |CallsOn(calls[c := call], other)| > 0 && OwnedOk(after[other], calls[c := call], other)
    {
      EnterCounts(calls, c, call, other);
      OwnedSame(if other in before then before[other] else after[other], after[other], calls, calls[c := call], other);
    }
  }

  lemma OwnedSame(before: SlotView, after: SlotView, calls: map<nat, Call>, calls': map<nat, Call>, id: Identity)
    requires OwnedOk(before, calls, id) && before.locked == after.locked && before.owner == after.owner
    requires HoldersOf(calls, id) == HoldersOf(calls', id)
    requires forall c :: c in HoldersOf(calls, id) ==> calls'[c].task == calls[c].task
    ensures OwnedOk(after, calls', id)
  {
    if before.locked {
      var c :| HoldersOf(calls, id) == {c} && before.owner == Some(calls[c].task);
      assert c in HoldersOf(calls, id);
    }
  }

  lemma CountAcquire(before: map<Identity, SlotView>, after: map<Identity, SlotView>, calls: map<nat, Call>, c: nat)
    requires Counted(before, calls) && c in calls && calls[c].point.Waiting?
    requires calls[c].request.identity in before && !before[calls[c].request.identity].locked
    requires var id := calls[c].request.identity; after == before[id := SlotView(before[id].users, true, Some(calls[c].task))]
    ensures Counted(after, calls[c := calls[c].(point := Looking)])
  {
    hide OwnedOk, HoldersOf;
    var id, calls' := calls[c].request.identity, calls[c := calls[c].(point := Looking)];
    forall other | other in after
      ensures after[other].users == |CallsOn(calls', other)| > 0 && OwnedOk(after[other], calls', other)
    {
      assert CallsOn(calls', other) == CallsOn(calls, other);
      OwnedAcquire(before[other], after[other], calls, c, other);
    }
  }

  lemma OwnedAcquire(before: SlotView, after: SlotView, calls: map<nat, Call>, c: nat, other: Identity)
    requires c in calls && calls[c].point.Waiting? && OwnedOk(before, calls, other)
    requires if other == calls[c].request.identity then !before.locked && after.locked && after.owner == Some(calls[c].task)
             else after.locked == before.locked && after.owner == before.owner
    ensures OwnedOk(after, calls[c := calls[c].(point := Looking)], other)
  {
    var calls' := calls[c := calls[c].(point := Looking)];
    if other == calls[c].request.identity {
      assert HoldersOf(calls', other) == HoldersOf(calls, other) + {c} == {c};
    } else {
      assert HoldersOf(calls', other) == HoldersOf(calls, other);
      OwnedSame(before, after, calls, calls', other);
    }
  }

  lemma CountMove(view: map<Identity, SlotView>, calls: map<nat, Call>, c: nat, point: Point)
    requires Counted(view, calls) && c in calls && Holds(calls[c]) && !point.Waiting?
    ensures Counted(view, calls[c := calls[c].(point := point)])
  {
    var calls' := calls[c := calls[c].(point := point)];
    forall other | other in view
      ensures view[other].users == |CallsOn(calls', other)| > 0 && OwnedOk(view[other], calls', other)
    {
      assert CallsOn(calls', other) == CallsOn(calls, other);
      OwnedSame(view[other], view[other], calls, calls', other);
    }
  }

  lemma CountPositive(view: map<Identity, SlotView>, calls: map<nat, Call>, c: nat)
    requires Counted(view, calls) && c in calls
    ensures calls[c].request.identity in view && view[calls[c].request.identity].users > 0
  {}

  /** Leaving keeps every other slot; the own slot stays exactly while it has users. */
  lemma CountLeave(before: map<Identity, SlotView>, after: map<Identity, SlotView>, calls: map<nat, Call>, c: nat)
    requires Counted(before, calls) && c in calls && calls[c].request.identity in before
    requires var id := calls[c].request.identity;
             before[id].users > 0 &&
             after == before[id := if Holds(calls[c]) then SlotView(before[id].users - 1, false, None)
                                   else before[id].(users := before[id].users - 1)]
    ensures var id := calls[c].request.identity;
            && Counted(if after[id].users == 0 then after - {id} else after, calls - {c})
            && (after[id].users == 0 ==> forall d :: d in calls - {c} ==> calls[d].request.identity != id)
  {
    hide OwnedOk, Holds, HoldersOf;
    var id, calls' := calls[c].request.identity, calls - {c};
    var final := if after[id].users == 0 then after - {id} else after;
    LeaveCounts(calls, c, id);
    forall d | d in calls' ensures calls'[d].request.identity in final {
      if calls[d].request.identity == id { assert d in CallsOn(calls', id); }
    }
    forall other | other in final
      ensures final[other].users == |CallsOn(calls', other)| > 0 && OwnedOk(final[other], calls', other)
    {
      hide CallsOn;
      OwnedLeave(before, final[other], calls, c, other);
      LeaveCounts(calls, c, other);
    }
  }

  lemma OwnedLeave(before: map<Identity, SlotView>, slot: SlotView, calls: map<nat, Call>, c: nat, other: Identity)
    requires Counted(before, calls) && c in calls && other in before
    requires if other == calls[c].request.identity && Holds(calls[c]) then !slot.locked && slot.owner == None
             else slot.locked == before[other].locked && slot.owner == before[other].owner
    ensures OwnedOk(slot, calls - {c}, other)
  {
    hide CallsOn;
    LeaveCounts(calls, c, other);
    if other == calls[c].request.identity && Holds(calls[c]) {
      SoleHolder(before, calls, c);
    } else {
      OwnedSame(before[other], slot, calls, calls - {c}, other);
    }
  }

  lemma LinkedAt(requests: map<Identity, RequestSlot>, calls: map<nat, Call>, c: nat)
    requires Linked(requests, calls) && c in calls
    ensures calls[c].request.identity in requests && requests[calls[c].request.identity] == calls[c].slot
  {}

  lemma LinkedDistinct(requests: map<Identity, RequestSlot>, calls: map<nat, Call>, id: Identity)
    requires Linked(requests, calls) && id in requests
    ensures forall a :: a in requests && a != id ==> requests[a] != requests[id]
  {}

  lemma SlotIsNew(requests: map<Identity, RequestSlot>, calls: map<nat, Call>, id: Identity, slot: RequestSlot)
    requires Linked(requests, calls) && id !in requests && forall a :: a in requests ==> requests[a] != slot
    ensures Linked(requests[id := slot], calls)
  {}

  lemma LinkEnter(requests: map<Identity, RequestSlot>, calls: map<nat, Call>, c: nat, call: Call)
    requires Linked(requests, calls) && call.request.identity in requests && call.slot == requests[call.request.identity]
    ensures Linked(requests, calls[c := call])
  {}

  lemma LinkMove(requests: map<Identity, RequestSlot>, calls: map<nat, Call>, c: nat, point: Point)
    requires Linked(requests, calls) && c in calls
    ensures Linked(requests, calls[c := calls[c].(point := point)])
  {}

  lemma LinkLeave(requests: map<Identity, RequestSlot>, calls: map<nat, Call>, c: nat)
    requires Linked(requests, calls)
    ensures Linked(requests, calls - {c})
  {}

  lemma LinkDrop(requests: map<Identity, RequestSlot>, calls: map<nat, Call>, id: Identity)
    requires Linked(requests, calls) && forall c :: c in calls ==> calls[c].request.identity != id
    ensures Linked(requests - {id}, calls)
  {}

  lemma ProtocolAt(j: Journal, t: Trail, definitions: Ref -> Definition, calls: map<nat, Call>, c: nat)
    requires Protocol(j, t, definitions, calls) && c in calls
    ensures Lawful(j, t, definitions, calls[c].request.identity)
    ensures PointOk(j, t, definitions, calls[c].request, calls[c].point)
  {}

  lemma RecordedFact(j: Journal, t: Trail, definitions: Ref -> Definition, calls: map<nat, Call>, id: Identity)
    requires Protocol(j, t, definitions, calls) && Requested(id) in j
    ensures j[Requested(id)].RequestFact?
  {
    assert Lawful(j, t, definitions, id);
  }

  lemma TellLawful(j: Journal, t: Trail, definitions: Ref -> Definition, a: Answer)
    requires Lawful(j, t, definitions, a.request.identity) && RequestedBy(j, a.request)
    requires ResultOf(a.request.identity) in j && j[ResultOf(a.request.identity)] == ResultFact(a.result)
    ensures Lawful(j, t.(answers := t.answers + [a]), definitions, a.request.identity)
  {
    var id, after := a.request.identity, t.(answers := t.answers + [a]);
    assert forall s :: HasReported(after, id, s) <==> HasReported(t, id, s);
  }

  lemma TellPoint(j: Journal, t: Trail, definitions: Ref -> Definition, a: Answer, point: Point)
    requires PointOk(j, t, definitions, a.request, point)
    ensures PointOk(j, t.(answers := t.answers + [a]), definitions, a.request, point)
  {}

  lemma LookingKeeps(j: Journal, t: Trail, definitions: Ref -> Definition, calls: map<nat, Call>, c: nat)
    requires Protocol(j, t, definitions, calls) && c in calls
    ensures Protocol(j, t, definitions, calls[c := calls[c].(point := Looking)])
  {}

  lemma LeaveCounts(calls: map<nat, Call>, c: nat, id: Identity)
    requires c in calls
    ensures |CallsOn(calls - {c}, id)| == |CallsOn(calls, id)| - if id == calls[c].request.identity then 1 else 0
    ensures |CallsOn(calls, id)| > 0 <==> CallsOn(calls, id) != {}
    ensures |CallsOn(calls - {c}, id)| > 0 <==> CallsOn(calls - {c}, id) != {}
    ensures HoldersOf(calls - {c}, id) == HoldersOf(calls, id) - {c}
  {
    assert CallsOn(calls - {c}, id) == CallsOn(calls, id) - {c};
  }

  lemma EnterCounts(calls: map<nat, Call>, c: nat, call: Call, id: Identity)
    requires c !in calls && call.point.Waiting?
    ensures |CallsOn(calls[c := call], id)| == |CallsOn(calls, id)| + if id == call.request.identity then 1 else 0
    ensures HoldersOf(calls[c := call], id) == HoldersOf(calls, id)
  {
    hide CallsOn, HoldersOf;
    OneMoreOn(calls, c, call, id);
    OneMoreWaiting(calls, c, call, id);
  }

  lemma OneMoreOn(calls: map<nat, Call>, c: nat, call: Call, id: Identity)
    requires c !in calls
    ensures CallsOn(calls[c := call], id) == CallsOn(calls, id) + (if id == call.request.identity then {c} else {})
    ensures c !in CallsOn(calls, id)
  {}

  lemma OneMoreWaiting(calls: map<nat, Call>, c: nat, call: Call, id: Identity)
    requires c !in calls && call.point.Waiting?
    ensures HoldersOf(calls[c := call], id) == HoldersOf(calls, id)
  {}
}
