/** Replicas of one Bot over the shared journal (src/aurora_bot/bot/store.py). Every `await` is a
    point where other writers extend the journal and where the caller may be interrupted. */
module BotStore {
  import opened Common
  import opened BotState

  // ---------------------------------------------------------------- the discipline of the clock

  function FindCommit(log: seq<Commit>, id: CommitId): (r: Option<Commit>)
    ensures r.Some? ==> r.value.id == id && r.value in log
    ensures r.None? <==> forall i :: 0 <= i < |log| ==> log[i].id != id
  {
    if log == [] then None
    else if log[|log| - 1].id == id then Some(log[|log| - 1])
    else FindCommit(log[..|log| - 1], id)
  }

  predicate HasStarted(log: seq<Commit>, wakeId: Id) {
    FindCommit(log, StartedCommit(wakeId)).Some?
  }

  predicate HasCompleted(log: seq<Commit>, wakeId: Id) {
    var finished := FindCommit(log, FinishedCommit(wakeId));
    finished.Some? && finished.value.fact == RunFinished(wakeId, true)
  }

  /** The wake has been claimed for delivery, and perhaps settled since. */
  predicate Claimed(s: Snapshot, wakeId: Id) {
    wakeId in s.wakes && !s.wakes[wakeId].status.Pending? && !s.wakes[wakeId].status.Cancelled?
  }

  const RESULT := "wake:result:"
  const CLAIM := "wake:claim:"

  /** The command names of the clock are its own: one settles its wake, the other claims it. */
  predicate Signed(change: Change) {
    && (RESULT <= change.commandId ==> Settles(change, change.commandId[|RESULT|..]))
    && (CLAIM <= change.commandId ==> Claims(change, change.commandId[|CLAIM|..]))
  }

  predicate Settles(change: Change, wakeId: Id) {
    exists i | 0 <= i < |change.wakes| :: change.wakes[i].wakeId == wakeId && change.wakes[i].status.Settled()
  }

  predicate Claims(change: Change, wakeId: Id) {
    exists i | 0 <= i < |change.wakes| :: change.wakes[i].wakeId == wakeId && change.wakes[i].status.Running?
  }

  predicate Founded(log: seq<Commit>, change: Change) {
    && Signed(change)
    && forall i | 0 <= i < |change.wakes| :: change.wakes[i].status.Completed? ==> HasCompleted(log, change.wakes[i].wakeId)
  }

  /** How clocks and cognition runs write: a run starts only for a claimed wake, finishes only once
      started, and a wake is completed only when its run finished as completed. */
  predicate Disciplined(log: seq<Commit>, c: Commit) {
    match c.fact
    case StateFact(_, change) => Founded(log, change)
    case RunStarted(wakeId, _) => Claimed(Replay(Changes(log)), wakeId)
    case RunFinished(wakeId, _) => HasStarted(log, wakeId)
    case OtherFact(_) => true
  }

  ghost predicate Deserved(log: seq<Commit>) {
    && Reserved(Replay(Changes(log)), CommandsOf(Changes(log)))
    && (forall id :: HasStarted(log, id) ==> Claimed(Replay(Changes(log)), id))
    && (forall id :: FindCommit(log, FinishedCommit(id)).Some? ==> HasStarted(log, id))
    && (forall id :: id in Replay(Changes(log)).wakes && Replay(Changes(log)).wakes[id].status.Completed? ==> HasCompleted(log, id))
  }

  /** A wake whose result command is known is settled, one whose claim command is known is claimed. */
  ghost predicate Reserved(s: Snapshot, commands: map<string, Change>) {
    && (forall id :: RESULT + id in commands ==> id in s.wakes && s.wakes[id].status.Settled())
    && (forall id :: CLAIM + id in commands ==> Claimed(s, id))
  }

  ghost predicate Kept(log: seq<Commit>, strict: bool) {
    Honest(log) && (strict ==> Deserved(log))
  }

  predicate Welcome(log: seq<Commit>, strict: bool, c: Commit) {
    Admissible(log, c) && (strict ==> Disciplined(log, c))
  }

  lemma FindAppend(log: seq<Commit>, c: Commit, id: CommitId)
    ensures FindCommit(log + [c], id) == if c.id == id then Some(c) else FindCommit(log, id)
  {
    assert (log + [c])[..|log|] == log;
  }

  lemma {:induction false} FindLater(log: seq<Commit>, later: seq<Commit>, id: CommitId)
    requires log <= later && Honest(later) && FindCommit(log, id).Some?
    ensures FindCommit(later, id) == FindCommit(log, id)
  {
    hide Honest;
    SameFind(later, FindCommit(log, id).value);
  }

  lemma SameFind(log: seq<Commit>, c: Commit)
    requires Honest(log) && c in log
    ensures FindCommit(log, c.id) == Some(c)
  {
    hide GoodLog, Changes;
    var i :| 0 <= i < |log| && log[i] == c;
    var found := FindCommit(log, c.id);
    assert found.Some?;
    var j :| 0 <= j < |log| && log[j] == found.value;
    assert log[i].id == log[j].id;
  }

  /** One disciplined commit keeps every completion, every run start and every run end deserved. */
  lemma AppendDeserved(log: seq<Commit>, c: Commit)
    requires Honest(log) && Deserved(log) && Admissible(log, c) && Disciplined(log, c)
    ensures Deserved(log + [c])
  {
    hide Replay, Changes, Fits, Accepts, WellFormed, FindCommit, Projected, GoodLog;
    var longer := log + [c];
    ScopedAppend(log, c);
    assert Changes(log) + [] == Changes(log);
    forall id ensures HasStarted(longer, id) <==> HasStarted(log, id) || (c.fact.RunStarted? && c.fact.wakeId == id)
      ensures FindCommit(longer, FinishedCommit(id)).Some? <==> FindCommit(log, FinishedCommit(id)).Some? || c.id == FinishedCommit(id)
      ensures HasCompleted(log, id) ==> HasCompleted(longer, id)
    {
      FindAppend(log, c, StartedCommit(id));
      FindAppend(log, c, FinishedCommit(id));
    }
    if c.fact.StateFact? {
      ChangeDeserved(log, c.fact.change);
      FitsMeans(Changes(log), c.fact.change);
      ChangeReserved(Replay(Changes(log)), CommandsOf(Changes(log)), c.fact.change);
      ReplayNext(Changes(log), c.fact.change);
    }
  }

  lemma FitsMeans(changes: seq<Change>, c: Change)
    requires Fits(changes, c)
    ensures WellFormed(c) && Accepts(Replay(changes), c)
  {}

  lemma ChangeReserved(s: Snapshot, commands: map<string, Change>, change: Change)
    requires Reserved(s, commands) && WellFormed(change) && Accepts(s, change) && Signed(change)
    ensures Reserved(Projected(s, change), commands[change.commandId := change])
  {
    hide Projected, Accepts, WellFormed;
    var after := Projected(s, change);
    forall id | RESULT + id == change.commandId ensures id in after.wakes && after.wakes[id].status.Settled() {
      assert change.commandId[|RESULT|..] == id;
      var i :| 0 <= i < |change.wakes| && change.wakes[i].wakeId == id && change.wakes[i].status.Settled();
      WrittenWake(s, change, i);
    }
    forall id | CLAIM + id == change.commandId ensures Claimed(after, id) {
      assert change.commandId[|CLAIM|..] == id;
      var i :| 0 <= i < |change.wakes| && change.wakes[i].wakeId == id && change.wakes[i].status.Running?;
      WrittenWake(s, change, i);
    }
    forall id | RESULT + id in commands ensures id in after.wakes && after.wakes[id].status.Settled() {
      ProjectedEvolves(s, change, id);
    }
    forall id | CLAIM + id in commands ensures Claimed(after, id) {
      ProjectedEvolves(s, change, id);
    }
  }

  /** A wake of the change that is not pending stands in the projection as written. */
  lemma WrittenWake(s: Snapshot, change: Change, i: nat)
    requires WellFormed(change) && i < |change.wakes| && !change.wakes[i].status.Pending?
    ensures var w := change.wakes[i]; w.wakeId in Projected(s, change).wakes && Projected(s, change).wakes[w.wakeId] == w
  {
    PutWakesAt(s.wakes, change.wakes);
    assert change.wakes[i] in change.wakes;
  }

  lemma ChangeDeserved(log: seq<Commit>, change: Change)
    requires Deserved(log) && Fits(Changes(log), change) && Founded(log, change)
    ensures var after := Projected(Replay(Changes(log)), change);
            && (forall id :: HasStarted(log, id) ==> Claimed(after, id))
            && (forall id :: id in after.wakes && after.wakes[id].status.Completed? ==> HasCompleted(log, id))
  {
    hide Replay, Changes, Accepts, WellFormed, FindCommit, HasCompleted, HasStarted;
    var before := Replay(Changes(log));
    var after := Projected(before, change);
    forall id | HasStarted(log, id) ensures Claimed(after, id) {
      hide Projected;
      assert Claimed(before, id);
      ProjectedEvolves(before, change, id);
    }
    forall id | id in after.wakes && after.wakes[id].status.Completed? ensures HasCompleted(log, id) {
      CompletedBy(before, change, id);
    }
  }

  /** A wake is completed after a change only if the change completes it or it was so before. */
  lemma CompletedBy(before: Snapshot, change: Change, id: Id)
    requires WellFormed(change) && id in Projected(before, change).wakes && Projected(before, change).wakes[id].status.Completed?
    ensures || (id in before.wakes && before.wakes[id].status.Completed?)
            || exists i :: 0 <= i < |change.wakes| && change.wakes[i].wakeId == id && change.wakes[i].status.Completed?
  {
    PutWakesAt(before.wakes, change.wakes);
    var wakes := PutWakes(before.wakes, change.wakes);
    if w :| w in change.wakes && w.wakeId == id {
      assert wakes[id] == w;
    } else {
      assert Lookup(wakes, id) == Lookup(before.wakes, id);
    }
  }

  lemma WelcomeKept(log: seq<Commit>, strict: bool, c: Commit)
    requires Kept(log, strict) && Welcome(log, strict, c)
    ensures Kept(log + [c], strict)
  {
    hide Honest, Deserved, Admissible, Disciplined;
    AppendHonest(log, c);
    if strict {
      AppendDeserved(log, c);
    }
  }

  // ---------------------------------------------------------------- the journal as replicas see it

  datatype Fate = Fine | Lost(landed: bool)

  /** What happens at one `await`: the commits of others, and whether the caller is interrupted —
      for an append, with the commit already landed or not. */
  datatype Tick = Tick(arrivals: seq<Commit>, fate: Fate)

  datatype Appended = Landed(at: nat) | Refused | Unknown

  /** Whatever others write meanwhile, the commit stays welcome until its identity is taken. */
  ghost predicate Lasting(log: seq<Commit>, strict: bool, c: Commit) {
    forall later :: log <= later && Kept(later, strict) && FindCommit(later, c.id).None? ==> Welcome(later, strict, c)
  }

  class World {
    const strict: bool
    const traffic: seq<Tick>
    var log: seq<Commit>
    var clock: nat

    ghost predicate Valid()
      reads this
    {
      Kept(log, strict)
    }

    /** Nobody else writes any more. */
    ghost predicate Quiet()
      reads this
    {
      clock >= |traffic|
    }

    lemma QuietMeans()
      ensures Quiet() <==> clock >= |traffic|
    {}

    constructor (strict: bool, traffic: seq<Tick>)
      ensures Valid() && log == [] && clock == 0 && this.strict == strict && this.traffic == traffic
    {
      this.strict, this.traffic, log, clock := strict, traffic, [], 0;
    }

    /** One `await`: others append what the protocol lets them append. */
    method Pass() returns (fate: Fate)
      requires Valid()
      modifies this
      ensures Valid() && old(log) <= log
      ensures old(Quiet()) ==> Quiet() && log == old(log) && clock == old(clock) && fate == Fine
      ensures !old(Quiet()) ==> clock == old(clock) + 1
    {
      hide Kept, Welcome;
      if clock >= |traffic| {
        return Fine;
      }
      var tick := traffic[clock];
      for i := 0 to |tick.arrivals|
        invariant Valid() && old(log) <= log && clock == old(clock)
      {
        if Welcome(log, strict, tick.arrivals[i]) {
          WelcomeKept(log, strict, tick.arrivals[i]);
          log := log + [tick.arrivals[i]];
        }
      }
      clock := clock + 1;
      fate := tick.fate;
    }

    /** The commit of an identity. */
    method Find(id: CommitId) returns (r: Option<Commit>, fate: Fate)
      requires Valid()
      modifies this
      ensures Valid() && old(log) <= log && old(clock) <= clock && r == FindCommit(log, id)
      ensures old(Quiet()) ==> Quiet() && log == old(log) && clock == old(clock) && fate == Fine
    {
      hide Kept, FindCommit;
      fate := Pass();
      r := FindCommit(log, id);
    }

    /** The commits of the Bot's scope after a position, at most `limit` of them. */
    method Page(position: nat, limit: nat) returns (page: seq<Entry>, fate: Fate)
      requires Valid() && position <= |Scoped(log)|
      modifies this
      ensures Valid() && old(log) <= log && position <= |Scoped(log)|
      ensures page == Scoped(log)[position..if position + limit < |Scoped(log)| then position + limit else |Scoped(log)|]
      ensures old(Quiet()) ==> Quiet() && log == old(log) && clock == old(clock) && fate == Fine
      ensures !old(Quiet()) ==> clock == old(clock) + 1
    {
      hide Kept, Scoped, Changes;
      fate := Pass();
      ScopedPrefix(log, |old(log)|);
      assert log[..|old(log)|] == old(log);
      page := Scoped(log)[position..if position + limit < |Scoped(log)| then position + limit else |Scoped(log)|];
    }

    /** The contract of the journal: a known identity returns its commit when the content is equal
        and is refused otherwise; a new one is appended. */
    method Append(c: Commit) returns (r: Appended)
      requires Valid() && Lasting(log, strict, c)
      modifies this
      ensures Valid() && old(log) <= log && old(clock) <= clock
      ensures r.Landed? ==> FindCommit(log, c.id) == Some(c) && (c.scoped ==> r.at < |Scoped(log)| && Scoped(log)[r.at].commit == c)
      ensures r.Refused? ==> FindCommit(log, c.id).Some? && FindCommit(log, c.id) != Some(c)
      ensures old(Quiet()) ==> Quiet() && clock == old(clock) && !r.Unknown?
      ensures old(Quiet()) ==> log == old(log) + if FindCommit(old(log), c.id).None? then [c] else []
      ensures old(Quiet()) && FindCommit(old(log), c.id).None? ==> r.Landed?
    {
      hide Kept, Welcome, Scoped, Honest;
      var fate := Pass();
      assert Kept(log, strict);
      if fate == Lost(false) {
        return Unknown;
      }
      var known := FindCommit(log, c.id);
      if known.None? {
        assert Welcome(log, strict, c);
        WelcomeKept(log, strict, c);
        FindAppend(log, c, c.id);
        log := log + [c];
      } else {
        assert log + [] == log;
      }
      if fate.Lost? {
        return Unknown;
      }
      if FindCommit(log, c.id) != Some(c) {
        return Refused;
      }
      r := Landed(if c.scoped then PlaceOf(log, c) else 0);
    }
  }

  /** The scope position of a scoped commit of the log. */
  function PlaceOf(log: seq<Commit>, c: Commit): (k: nat)
    requires c in log && c.scoped
    ensures k < |Scoped(log)| && Scoped(log)[k].commit == c
  {
    var m := |log| - 1;
    assert log == log[..m] + [log[m]];
    ScopedAppend(log[..m], log[m]);
    if log[m] == c then |Scoped(log[..m])| else PlaceOf(log[..m], c)
  }

  // ---------------------------------------------------------------- one replica

  const PAGE_SIZE: nat := 128

  function Upto(log: seq<Commit>, cursor: nat): seq<Commit> {
    if cursor < |log| then log[..cursor] else log
  }

  lemma UptoGrows(log: seq<Commit>, later: seq<Commit>, cursor: nat)
    requires log <= later
    ensures Scoped(Upto(log, cursor)) <= Scoped(Upto(later, cursor)) <= Scoped(later)
  {
    hide Scoped, Changes;
    var part := Upto(log, cursor);
    ScopedPrefix(later, |Upto(later, cursor)|);
    assert later[..|Upto(later, cursor)|] == Upto(later, cursor);
    ScopedPrefix(Upto(later, cursor), |part|);
    assert Upto(later, cursor)[..|part|] == part;
  }

  /** The scoped commits with a cursor beyond the bound start where the bounded journal ends. */
  lemma UptoSplits(log: seq<Commit>, cursor: nat, k: nat)
    requires k < |Scoped(log)|
    ensures Scoped(log)[k].cursor <= cursor <==> k < |Scoped(Upto(log, cursor))|
  {
    hide Scoped;
    if cursor < |log| {
      CursorSplits(log, cursor, k);
    } else {
      ScopedEntry(log, k);
    }
  }

  lemma UptoRead(log: seq<Commit>, cursor: nat)
    ensures |Scoped(Upto(log, cursor))| <= |Scoped(log)|
    ensures ReadTo(log, |Scoped(Upto(log, cursor))|) == Changes(Upto(log, cursor))
  {
    hide Scoped, ChangesIn;
    UptoGrows(log, log, cursor);
    assert Scoped(log)[..|Scoped(Upto(log, cursor))|] == Scoped(Upto(log, cursor));
  }

  /** How far a refresh may read. */
  function Bound(log: seq<Commit>, until: Option<nat>): (k: nat)
    ensures k <= |Scoped(log)|
  {
    match until
    case None => |Scoped(log)|
    case Some(cursor) => UptoRead(log, cursor); |Scoped(Upto(log, cursor))|
  }

  lemma BoundGrows(log: seq<Commit>, later: seq<Commit>, until: Option<nat>)
    requires log <= later
    ensures Bound(log, until) <= Bound(later, until)
  {
    hide Scoped, Changes;
    ScopedPrefix(later, |log|);
    assert later[..|log|] == log;
    if until.Some? {
      UptoGrows(log, later, until.value);
    }
  }

  class JournalBotState {
    const world: World
    var snapshot: Snapshot
    var position: nat
    var commands: map<string, Change>

    ghost predicate Valid()
      reads this, world
    {
      world.Valid() && InStep(world.log, position, snapshot, commands)
    }

    constructor (world: World)
      requires world.Valid()
      ensures Valid() && this.world == world && position == 0
      ensures unchanged(world)
    {
      this.world, snapshot, position, commands := world, EMPTY, 0, map[];
      new;
      NothingRead(world.log);
    }

    /** `_restore`: the next version with the matching expectation, or the log is broken. */
    method Restore(version: nat, change: Change) returns (r: Option<Error>)
      requires WellFormed(change)
      modifies this`snapshot, this`commands
      ensures r.None? <==> old(version == snapshot.version + 1 && change.expectedVersion == snapshot.version && Accepts(snapshot, change))
      ensures r.None? ==> snapshot == Projected(old(snapshot), change) && commands == old(commands)[change.commandId := change]
      ensures r.Some? ==> snapshot == old(snapshot) && commands == old(commands)
    {
      hide Accepts, Projected;
      if version != snapshot.version + 1 || change.expectedVersion != snapshot.version {
        return Some(JournalBroken);
      }
      var projected := Project(snapshot, change);
      if projected.Err? {
        return Some(projected.error);
      }
      ProjectedVersion(snapshot, change);
      snapshot, commands := projected.value.(version := version), commands[change.commandId := change];
      return None;
    }

    /** `_refresh`: replays what the scope holds beyond the position, up to a cursor if one is given.
        An honest journal never breaks off; only an interruption ends it early, and then the replica
        is still in step with what it has read. */
    method Refresh(until: Option<nat>) returns (r: Option<Error>)
      requires Valid() && position <= Bound(world.log, until)
      modifies this, world
      ensures Valid() && old(world.log) <= world.log && old(world.clock) <= world.clock
      ensures r.None? || r == Some(CallInterrupted)
      ensures position <= Bound(world.log, until)
      ensures !old(world.Quiet()) ==> old(world.clock) < world.clock
      ensures r.None? ==> position == Bound(world.log, until)
      ensures old(world.Quiet()) ==> world.Quiet() && r.None? && world.log == old(world.log) && world.clock == old(world.clock)
    {
      hide Kept, Scoped, InStep, Bound, Upto;
      while true
        invariant Valid() && old(world.log) <= world.log && old(world.clock) <= world.clock
        invariant position <= Bound(world.log, until)
        invariant !old(world.Quiet()) ==> world.clock == old(world.clock) ==> !world.Quiet()
        invariant old(world.Quiet()) ==> world.Quiet() && world.log == old(world.log) && world.clock == old(world.clock)
        decreases if world.clock < |world.traffic| then |world.traffic| - world.clock else 0, |Scoped(world.log)| - position
      {
        ghost var before := world.log;
        InStepBounds(world.log, position, snapshot, commands);
        var page, fate := world.Page(position, PAGE_SIZE);
        InStepStable(before, world.log, position, snapshot, commands);
        BoundGrows(before, world.log, until);
        if fate.Lost? {
          return Some(CallInterrupted);
        }
        if page == [] {
          BoundMeans(world.log, until, position);
          return None;
        }
        var start := position;
        for i := 0 to |page|
          invariant Valid() && position == start + i && position <= Bound(world.log, until)
          modifies this
        {
          assert page[i] == Scoped(world.log)[position];
          BoundMeans(world.log, until, position);
          if until.Some? && page[i].cursor > until.value {
            return None;
          }
          ReadOne(page[i].commit.fact);
        }
      }
    }

    /** One more commit of the scope is read; a state change among them is restored. */
    method ReadOne(fact: Fact)
      requires Valid() && position < |Scoped(world.log)| && fact == Scoped(world.log)[position].commit.fact
      modifies this
      ensures Valid() && position == old(position) + 1
    {
      hide Kept, Scoped, InStep;
      KeptHonest(world.log, world.strict);
      StepRead(world.log, position, snapshot, commands);
      if fact.StateFact? {
        var broken := Restore(fact.version, fact.change);
        assert broken.None?;
      }
      position := position + 1;
    }

    /** `snapshot`: exactly the fold of everything the journal holds at its last await. */
    method Read() returns (r: Result<Snapshot, Error>)
      requires Valid()
      modifies this, world
      ensures Valid() && old(world.log) <= world.log && old(world.clock) <= world.clock
      ensures r.Ok? ==> r.value == snapshot == Replay(Changes(world.log)) && commands == CommandsOf(Changes(world.log))
      ensures r.Ok? ==> position == |Scoped(world.log)|
      ensures !old(world.Quiet()) ==> old(world.clock) < world.clock
      ensures r.Err? ==> r.error == CallInterrupted
      ensures old(world.Quiet()) ==> world.Quiet() && r.Ok? && world.log == old(world.log) && world.clock == old(world.clock)
    {
      hide Kept, Scoped, Changes;
      var lost := Refresh(None);
      if lost.Some? {
        return Err(lost.value);
      }
      ReadAll(world.log, position);
      return Ok(snapshot);
    }

    /** `apply`: reads everything, then appends the change under the next version. Success means the
        change stands in the journal (once, by `GoodLog`); a command known under other content, an
        outdated expectation and an unacceptable change are refused without a trace; an interruption
        at the append leaves the replica in step whether or not the commit landed. */
    method Apply(change: Change) returns (r: Result<Snapshot, Error>)
      requires Valid() && WellFormed(change) && (world.strict ==> Founded(world.log, change))
      modifies this, world
      ensures Valid() && old(world.log) <= world.log && old(world.clock) <= world.clock
      ensures r.Ok? ==> r.value == snapshot && change in Changes(world.log)
      ensures r == Err(CommandReused) ==> change.commandId in commands && commands[change.commandId] != change
      ensures r == Err(Conflict) ==> change.expectedVersion != snapshot.version
      ensures r.Err? && !r.error.CommandReused? && !r.error.Conflict? && !r.error.CallInterrupted? ==>
                !Accepts(snapshot, change) && change.commandId !in commands && change.expectedVersion == snapshot.version
      ensures r.Err? && !r.error.Conflict? && !r.error.CallInterrupted? ==>
                snapshot == Replay(Changes(world.log)) && commands == CommandsOf(Changes(world.log))
      ensures r.Ok? ==> Took(Changes(world.log), change)
      ensures old(world.Quiet()) ==> world.Quiet() && world.clock == old(world.clock) && QuietApply(old(world.log), change, world.log, snapshot, r)
      ensures old(world.Quiet()) && r.Ok? && change.commandId !in CommandsOf(Changes(old(world.log))) ==>
                TakesEffect(Replay(Changes(old(world.log))), change, snapshot)
    {
      r := Decide(change);
      hide Scoped, Changes, Accepts, WellFormed, Projected, InStep, Lasting, Founded, Replay, Refuses, TakesEffect, Took, CommandsOf;
      if r.Ok? {
        LogGood(world.log, world.strict);
        InJournalTook(Changes(world.log), change);
        ProjectedTakesEffect(Replay(Changes(old(world.log))), change);
      }
    }

    /** The whole of `apply`; what its success means is read off the journal. */
    method Decide(change: Change) returns (r: Result<Snapshot, Error>)
      requires Valid() && WellFormed(change) && (world.strict ==> Founded(world.log, change))
      modifies this, world
      ensures Valid() && old(world.log) <= world.log && old(world.clock) <= world.clock
      ensures r.Ok? ==> r.value == snapshot && change in Changes(world.log)
      ensures r == Err(CommandReused) ==> change.commandId in commands && commands[change.commandId] != change
      ensures r == Err(Conflict) ==> change.expectedVersion != snapshot.version
      ensures r.Err? && !r.error.CommandReused? && !r.error.Conflict? && !r.error.CallInterrupted? ==>
                !Accepts(snapshot, change) && change.commandId !in commands && change.expectedVersion == snapshot.version
      ensures r.Err? && !r.error.Conflict? && !r.error.CallInterrupted? ==>
                snapshot == Replay(Changes(world.log)) && commands == CommandsOf(Changes(world.log))
      ensures old(world.Quiet()) ==> world.Quiet() && world.clock == old(world.clock) && QuietApply(old(world.log), change, world.log, snapshot, r)
    {
      hide Kept, Scoped, Changes, Accepts, WellFormed, Projected, InStep, Lasting, Founded, Replay, Honest, Refuses;
      ghost var start := world.log;
      WholeScope(world.log, position, snapshot, commands);
      var lost := Refresh(None);
      if lost.Some? {
        return Err(lost.value);
      }
      KeptHonest(world.log, world.strict);
      CompleteRead(world.log, position, snapshot, commands);
      if change.commandId in commands {
        if commands[change.commandId] != change {
          return Err(CommandReused);
        }
        return Ok(snapshot);
      }
      if change.expectedVersion != snapshot.version {
        return Err(Conflict);
      }
      var projected := Project(snapshot, change);
      if projected.Err? {
        RefusesReasons(snapshot, change, projected.error);
        return Err(projected.error);
      }
      if world.strict {
        FoundedLater(start, world.log, change);
      }
      r := Put(change, projected.value);
    }

    /** The second half of `apply`: the append, and what its outcome makes of the replica. */
    method Put(change: Change, projected: Snapshot) returns (r: Result<Snapshot, Error>)
      requires Valid() && WellFormed(change) && (world.strict ==> Founded(world.log, change))
      requires snapshot == Replay(Changes(world.log)) && commands == CommandsOf(Changes(world.log))
      requires position == |Scoped(world.log)| && snapshot.version == |Changes(world.log)|
      requires change.commandId !in commands && change.expectedVersion == snapshot.version && Accepts(snapshot, change)
      requires projected == Projected(snapshot, change).(version := snapshot.version)
      modifies this, world
      ensures Valid() && old(world.log) <= world.log && old(world.clock) <= world.clock
      ensures r.Ok? ==> r.value == snapshot && change in Changes(world.log)
      ensures r == Err(Conflict) ==> change.expectedVersion != snapshot.version
      ensures r.Ok? || r == Err(Conflict) || r == Err(CallInterrupted)
      ensures old(world.Quiet()) ==>
                && world.Quiet() && world.clock == old(world.clock)
                && world.log == old(world.log) + [StateCommitOf(old(snapshot.version) + 1, old(position), change)]
                && snapshot == Projected(old(snapshot), change) && r == Ok(snapshot)
    {
      hide Kept, Scoped, Changes, Accepts, WellFormed, Projected, InStep, Lasting, Founded, Replay, Honest, CommandsOf;
      hide FindCommit, Bound, Upto, Lasting, Welcome, World.Quiet, ReadTo;
      FreshVersion(world.log, world.strict);
      var version := snapshot.version + 1;
      var commit := StateCommitOf(version, position, change);
      OwnLasting(world.log, world.strict, position, snapshot, commands, change);
      ghost var before := world.log;
      var appended := world.Append(commit);
      InStepStable(before, world.log, position, snapshot, commands);
      KeptHonest(world.log, world.strict);
      if appended.Unknown? {
        return Err(CallInterrupted);
      }
      if appended.Refused? {
        r := Overtaken(version);
        return;
      }
      LandedInStep(world.log, position, snapshot, commands, appended.at, change, projected);
      snapshot := projected.(version := version);
      position := appended.at + 1;
      commands := commands[change.commandId := change];
      return Ok(snapshot);
    }

    /** The journal holds another commit for the version: after reading on, the state has moved past
        it, so the change conflicts and the journal's own refusal is never the error reported. */
    method Overtaken(version: nat) returns (r: Result<Snapshot, Error>)
      requires Valid() && FindCommit(world.log, StateCommit(version)).Some?
      modifies this, world
      ensures Valid() && old(world.log) <= world.log && old(world.clock) <= world.clock
      ensures r == Err(Conflict) || r == Err(CallInterrupted)
      ensures r == Err(Conflict) ==> snapshot.version >= version
    {
      hide Kept, Scoped, Changes, InStep, Replay, FindCommit, Bound, World.Quiet;
      ghost var taken := world.log;
      WholeScope(world.log, position, snapshot, commands);
      var lost := Refresh(None);
      if lost.Some? {
        return Err(lost.value);
      }
      KeptHonest(world.log, world.strict);
      TakenVersion(taken, world.log, version, position, snapshot, commands);
      return Err(Conflict);
    }

    /** `snapshot_at`: the fold of the commits up to a cursor; the replica itself does not move. */
    method ReadAt(cursor: int) returns (r: Result<Snapshot, Error>)
      requires Valid()
      modifies world
      ensures Valid() && old(world.log) <= world.log
      ensures r.Ok? ==> cursor >= 0 && r.value == Replay(Changes(Upto(world.log, cursor)))
      ensures r.Err? ==> r.error == if cursor < 0 then NegativeCursor else CallInterrupted
      ensures old(world.Quiet()) ==> (r.Ok? <==> cursor >= 0) && world.log == old(world.log)
    {
      hide Kept, Scoped, Replay, Changes, CommandsOf;
      if cursor < 0 {
        return Err(NegativeCursor);
      }
      ghost var before := world.log;
      var projection := new JournalBotState(world);
      var lost := projection.Refresh(Some(cursor));
      InStepStable(before, world.log, position, snapshot, commands);
      if lost.Some? {
        return Err(lost.value);
      }
      UptoRead(world.log, cursor);
      return Ok(projection.snapshot);
    }
  }

  /** The commit a replica makes of a change. */
  function StateCommitOf(version: nat, position: nat, change: Change): Commit {
    Commit(StateCommit(version), true, position, StateFact(version, change))
  }

  lemma FoundedLater(log: seq<Commit>, later: seq<Commit>, change: Change)
    requires Founded(log, change) && log <= later && Honest(later)
    ensures Founded(later, change)
  {
    hide Honest, FindCommit;
    forall i | 0 <= i < |change.wakes| && change.wakes[i].status.Completed?
      ensures HasCompleted(later, change.wakes[i].wakeId)
    {
      FindLater(log, later, FinishedCommit(change.wakes[i].wakeId));
    }
  }

  /** What a replica that has read everything appends stays welcome until someone else takes the
      version. */
  lemma OwnLasting(log: seq<Commit>, strict: bool, position: nat, snapshot: Snapshot, commands: map<string, Change>, change: Change)
    requires Kept(log, strict) && InStep(log, position, snapshot, commands)
    requires WellFormed(change) && change.expectedVersion == snapshot.version && Accepts(snapshot, change)
    requires change.commandId !in commands && (strict ==> Founded(log, change))
    ensures Lasting(log, strict, StateCommitOf(snapshot.version + 1, position, change))
  {
    hide Accepts, WellFormed, InStep, Honest, Deserved, Admissible, Founded, HasCompleted;
    var c := StateCommitOf(snapshot.version + 1, position, change);
    forall later | log <= later && Kept(later, strict) && FindCommit(later, c.id).None? ensures Welcome(later, strict, c) {
      InStepStable(log, later, position, snapshot, commands);
      NothingNew(later, position, snapshot, commands);
      FreshFits(later, snapshot, commands, change);
      FreshAdmissible(later, c);
      if strict {
        FoundedLater(log, later, change);
        FoundedDisciplined(later, c);
      }
    }
  }

  lemma FoundedDisciplined(log: seq<Commit>, c: Commit)
    requires c.fact.StateFact? && Founded(log, c.fact.change)
    ensures Disciplined(log, c)
  {}

  lemma FreshFits(log: seq<Commit>, snapshot: Snapshot, commands: map<string, Change>, change: Change)
    requires snapshot == Replay(Changes(log)) && commands == CommandsOf(Changes(log)) && snapshot.version == |Changes(log)|
    requires WellFormed(change) && change.expectedVersion == snapshot.version && Accepts(snapshot, change)
    requires change.commandId !in commands
    ensures Fits(Changes(log), change)
  {
    hide Changes, Accepts, WellFormed, Replay;
    CommandsOfKeys(Changes(log));
  }

  lemma FreshAdmissible(log: seq<Commit>, c: Commit)
    requires FindCommit(log, c.id).None? && c.fact.StateFact? && Matches(c.id, c.fact) && c.scoped
    requires c.fact.version == |Changes(log)| + 1 && Fits(Changes(log), c.fact.change)
    ensures Admissible(log, c)
  {
    hide Changes, Fits;
  }

  lemma KeptHonest(log: seq<Commit>, strict: bool)
    requires Kept(log, strict)
    ensures Honest(log)
  {}

  lemma NothingRead(log: seq<Commit>)
    ensures InStep(log, 0, EMPTY, map[])
  {}

  lemma ProjectedVersion(s: Snapshot, c: Change)
    ensures Projected(s, c).version == s.version + 1
  {}

  lemma WholeScope(log: seq<Commit>, position: nat, snapshot: Snapshot, commands: map<string, Change>)
    requires InStep(log, position, snapshot, commands)
    ensures position <= Bound(log, None)
  {}

  lemma InStepBounds(log: seq<Commit>, position: nat, snapshot: Snapshot, commands: map<string, Change>)
    requires InStep(log, position, snapshot, commands)
    ensures position <= |Scoped(log)|
  {}

  lemma BoundMeans(log: seq<Commit>, until: Option<nat>, k: nat)
    ensures k == |Scoped(log)| && k <= Bound(log, until) ==> k == Bound(log, until)
    ensures until.None? ==> Bound(log, until) == |Scoped(log)|
    ensures k < |Scoped(log)| && until.Some? ==> (Scoped(log)[k].cursor <= until.value <==> k < Bound(log, until))
  {
    hide Scoped, Upto;
    if k < |Scoped(log)| && until.Some? {
      UptoSplits(log, until.value, k);
    }
  }

  /** `apply` when nobody else writes: decided by the folded journal alone. */
  ghost predicate QuietApply(log: seq<Commit>, change: Change, after: seq<Commit>, snapshot: Snapshot, r: Result<Snapshot, Error>) {
    var s := Replay(Changes(log));
    var known := CommandsOf(Changes(log));
    if change.commandId in known then
      && after == log && snapshot == s
      && r == (if known[change.commandId] == change then Ok(s) else Err(CommandReused))
    else if change.expectedVersion != s.version then after == log && snapshot == s && r == Err(Conflict)
    else if !Accepts(s, change) then after == log && snapshot == s && r.Err? && Refuses(s, change, r.error)
    else
      && after == log + [StateCommitOf(s.version + 1, |Scoped(log)|, change)]
      && r == Ok(Projected(s, change)) && snapshot == Projected(s, change)
  }

  lemma LogGood(log: seq<Commit>, strict: bool)
    requires Kept(log, strict)
    ensures GoodLog(Changes(log))
  {
    hide GoodLog, Changes;
  }

  lemma CompleteRead(log: seq<Commit>, position: nat, snapshot: Snapshot, commands: map<string, Change>)
    requires InStep(log, position, snapshot, commands) && position == Bound(log, None)
    ensures position == |Scoped(log)| && snapshot == Replay(Changes(log)) && commands == CommandsOf(Changes(log))
    ensures snapshot.version == |Changes(log)|
    ensures forall id :: id in commands ==> commands[id] in Changes(log)
  {
    hide Scoped, Replay, ChangesIn;
    ReadAll(log, position);
    ReplayVersion(Changes(log));
    CommandsOfKeys(Changes(log));
  }

  lemma RefusesReasons(s: Snapshot, c: Change, e: Error)
    requires Refuses(s, c, e)
    ensures e.NotPending? || e.TransitionRefused? || e.UnknownGoal? || e.GoalNotActive?
  {}

  /** Once the next version is taken, a complete reader has moved past it. */
  lemma TakenVersion(taken: seq<Commit>, log: seq<Commit>, version: nat, position: nat, snapshot: Snapshot, commands: map<string, Change>)
    requires taken <= log && Honest(log) && FindCommit(taken, StateCommit(version)).Some?
    requires InStep(log, position, snapshot, commands) && position == Bound(log, None)
    ensures snapshot.version >= version
  {
    hide Honest, Bound, InStep, Changes;
    CompleteRead(log, position, snapshot, commands);
    var c := FindCommit(taken, StateCommit(version)).value;
    var i :| 0 <= i < |taken| && taken[i] == c;
    assert log[i].id == StateCommit(version);
    VersionsWithoutGap(log, version);
  }

  lemma FreshVersion(log: seq<Commit>, strict: bool)
    requires Kept(log, strict)
    ensures FindCommit(log, StateCommit(|Changes(log)| + 1)).None?
  {
    hide Changes, Deserved;
    VersionsWithoutGap(log, |Changes(log)| + 1);
  }

  lemma LandedInStep(log: seq<Commit>, position: nat, snapshot: Snapshot, commands: map<string, Change>, at: nat, change: Change,
      projected: Snapshot)
    requires Honest(log) && InStep(log, position, snapshot, commands) && at < |Scoped(log)|
    requires Scoped(log)[at].commit == StateCommitOf(snapshot.version + 1, position, change)
    requires projected == Projected(snapshot, change).(version := snapshot.version)
    ensures change in Changes(log)
    ensures InStep(log, at + 1, projected.(version := snapshot.version + 1), commands[change.commandId := change])
    ensures projected.(version := snapshot.version + 1) == Projected(snapshot, change)
  {
    hide Honest, InStep, Scoped, Changes;
    OwnCommit(log, position, snapshot, commands, at);
    InChanges(log, at);
    ProjectedVersion(snapshot, change);
  }

  lemma InChanges(log: seq<Commit>, at: nat)
    requires at < |Scoped(log)| && Scoped(log)[at].commit.fact.StateFact?
    ensures Scoped(log)[at].commit.fact.change in Changes(log)
  {
    hide Scoped;
    ReadNext(log, at);
    ReadAll(log, at + 1);
    var n := |ReadTo(log, at)|;
    assert ReadTo(log, at + 1)[n] == Changes(log)[n];
  }
}
