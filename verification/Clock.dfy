/** The wake clock (src/aurora_bot/clock/clock.py) with the journal side of the cognition run it
    launches (src/aurora_bot/engine/ledger.py, src/aurora_bot/engine/runtime.py). A crash is a call
    that never continues after an await: whatever a new process finds is the journal, and that is
    what the invariants speak about. */
module Clock {
  import opened Common
  import opened BotState
  import opened BotStore

  /** How one cognition run goes: it may fail or be cancelled before anything is written; otherwise
      it returns a recorded status, or breaks or is cut off with its end recorded or not. */
  datatype RunFate =
    | RefusedEarly | CancelledEarly
    | Ended(completed: bool)
    | Broke(recorded: Option<bool>)
    | Cut(recorded: Option<bool>)

  datatype RunOutcome = Returned(completed: bool) | Raised | Stopped

  datatype Step = Idle | Outpaced | Ran(wakeId: Id) | Halted(launched: Option<Id>)

  // ---------------------------------------------------------------- single changes of one wake

  function WithStatus(w: Wake, status: WakeStatus, detail: string): Wake {
    w.(status := status, detail := detail)
  }

  /** The change that gives one wake a status. */
  function StatusChange(commandId: string, s: Snapshot, id: Id, status: WakeStatus, detail: string): Change
    requires id in s.wakes
  {
    Change(commandId, s.version, [], [WithStatus(s.wakes[id], status, detail)])
  }

  /** Giving one wake of a coherent snapshot an allowed status changes that wake and nothing else. */
  lemma StatusProjected(commandId: string, s: Snapshot, id: Id, status: WakeStatus, detail: string)
    requires Coherent(s) && id in s.wakes && Allowed(s.wakes[id].status, status)
    ensures var c := StatusChange(commandId, s, id, status, detail);
            && WellFormed(c) && Accepts(s, c)
            && Projected(s, c) == Snapshot(s.version + 1, s.goals, s.wakes[id := WithStatus(s.wakes[id], status, detail)])
  {
    var c := StatusChange(commandId, s, id, status, detail);
    var w := c.wakes[0];
    assert c.goals == [] && PutGoals(s.goals, []) == s.goals;
    assert c.wakes[..0] == [] && PutWakes(s.wakes, []) == s.wakes;
    assert PutWakes(s.wakes, c.wakes) == s.wakes[id := w];
    assert Accepts(s, c) by {
      assert WakeError(s.goals, Lookup(s.wakes, id), w).None?;
    }
    assert CancelStopped(s.goals, s.wakes[id := w]) == s.wakes[id := w];
  }

  lemma ResultSigned(s: Snapshot, id: Id, status: WakeStatus, detail: string)
    requires id in s.wakes && s.wakes[id].wakeId == id && status.Settled()
    ensures Signed(StatusChange(RESULT + id, s, id, status, detail))
  {
    var c := StatusChange(RESULT + id, s, id, status, detail);
    assert c.commandId[|RESULT|..] == id;
    assert c.wakes[0].wakeId == id;
    assert c.commandId[5] == 'r';
    assert CLAIM[5] == 'c';
  }

  lemma ClaimSigned(s: Snapshot, id: Id)
    requires id in s.wakes && s.wakes[id].wakeId == id
    ensures Signed(StatusChange(CLAIM + id, s, id, Running, s.wakes[id].detail))
  {
    var c := StatusChange(CLAIM + id, s, id, Running, s.wakes[id].detail);
    assert c.commandId[|CLAIM|..] == id;
    assert c.wakes[0].wakeId == id;
    assert c.commandId[5] == 'c';
    assert RESULT[5] == 'r';
  }

  // ---------------------------------------------------------------- what the journal says, now and later

  function Now(log: seq<Commit>): Snapshot {
    Replay(Changes(log))
  }

  lemma NowIs(log: seq<Commit>)
    ensures Now(log) == Replay(Changes(log))
  {}

  lemma NowCoherent(log: seq<Commit>)
    requires Honest(log)
    ensures Coherent(Now(log)) && Now(log).version == |Changes(log)|
  {
    hide Scoped, ChangesIn, Coherent, GoodLog, Replay, Changes;
    ReplayCoherent(Changes(log));
    ReplayVersion(Changes(log));
  }

  /** Through any commits of anyone: wakes stay, and evolve only along the transition graph. */
  lemma WakeLater(log: seq<Commit>, later: seq<Commit>, id: Id)
    requires log <= later && Honest(later) && id in Now(log).wakes
    ensures id in Now(later).wakes && Evolves(Now(log).wakes[id], Now(later).wakes[id])
  {
    hide Scoped, ChangesIn, GoodLog, Replay, Changes, Evolves;
    ScopedPrefix(later, |log|);
    assert later[..|log|] == log;
    assert Changes(later)[..|Changes(log)|] == Changes(log);
    WakesEvolve(Changes(later), |Changes(log)|, id);
  }

  lemma ClaimedLater(log: seq<Commit>, later: seq<Commit>, id: Id)
    requires log <= later && Honest(later) && Claimed(Now(log), id)
    ensures Claimed(Now(later), id)
  {
    hide Honest, Now;
    WakeLater(log, later, id);
  }

  function StartCommit(id: Id, execution: nat, position: nat): Commit {
    Commit(StartedCommit(id), false, position, RunStarted(id, execution))
  }

  function FinishCommit(id: Id, position: nat, completed: bool): Commit {
    Commit(FinishedCommit(id), false, position, RunFinished(id, completed))
  }

  lemma StartLasting(log: seq<Commit>, strict: bool, id: Id, execution: nat, position: nat)
    requires Claimed(Now(log), id)
    ensures Lasting(log, strict, StartCommit(id, execution, position))
  {
    hide Claimed, Honest, Deserved, Replay, Changes;
    forall later | log <= later && Kept(later, strict) && FindCommit(later, StartedCommit(id)).None?
      ensures Welcome(later, strict, StartCommit(id, execution, position))
    {
      ClaimedLater(log, later, id);
    }
  }

  /** The start record of a run is the one this execution wrote. */
  ghost predicate StartedBy(log: seq<Commit>, id: Id, execution: nat) {
    exists position :: FindCommit(log, StartedCommit(id)) == Some(StartCommit(id, execution, position))
  }

  /** However many executions race for a run, and whenever each of them looks: one of them owns it, for
      good. */
  lemma SoleStarter(log: seq<Commit>, later: seq<Commit>, id: Id, a: nat, b: nat)
    requires log <= later && Honest(later) && StartedBy(log, id, a)
    ensures StartedBy(later, id, a)
    ensures StartedBy(later, id, b) ==> a == b
  {
    hide FindCommit, Honest;
    FindLater(log, later, StartedCommit(id));
  }

  lemma FinishLasting(log: seq<Commit>, strict: bool, id: Id, position: nat, completed: bool)
    requires HasStarted(log, id)
    ensures Lasting(log, strict, FinishCommit(id, position, completed))
  {
    hide Honest, Deserved, Replay, Changes;
    forall later | log <= later && Kept(later, strict) && FindCommit(later, FinishedCommit(id)).None?
      ensures Welcome(later, strict, FinishCommit(id, position, completed))
    {
      FindLater(log, later, StartedCommit(id));
    }
  }

  /** Commits of runs leave the state as it is. */
  lemma RunCommitState(log: seq<Commit>, c: Commit)
    requires !c.scoped
    ensures Now(log + [c]) == Now(log) && CommandsOf(Changes(log + [c])) == CommandsOf(Changes(log))
  {
    hide Scoped, Replay, ChangesIn;
    ScopedAppend(log, c);
    assert Changes(log) + [] == Changes(log);
  }

  // ---------------------------------------------------------------- the order of delivery

  function CharsBefore(a: string, b: string): bool {
    if a == [] then true
    else if b == [] then false
    else a[0] < b[0] || (a[0] == b[0] && CharsBefore(a[1..], b[1..]))
  }

  lemma {:induction false} CharsTotal(a: string, b: string)
    ensures CharsBefore(a, b) || CharsBefore(b, a)
    ensures CharsBefore(a, b) && CharsBefore(b, a) ==> a == b
  {
    if a != [] && b != [] {
      CharsTotal(a[1..], b[1..]);
      assert a == [a[0]] + a[1..] && b == [b[0]] + b[1..];
    }
  }

  lemma {:induction false} CharsTransitive(a: string, b: string, c: string)
    requires CharsBefore(a, b) && CharsBefore(b, c)
    ensures CharsBefore(a, c)
  {
    if a != [] && a[0] == b[0] && b[0] == c[0] {
      CharsTransitive(a[1..], b[1..], c[1..]);
    }
  }

  /** Earlier due first, then by identity. */
  predicate NotAfter(a: Wake, b: Wake) {
    a.dueAt < b.dueAt || (a.dueAt == b.dueAt && CharsBefore(a.wakeId, b.wakeId))
  }

  predicate Due(w: Wake, now: int) {
    w.status.Running? || (w.status.Pending? && w.dueAt <= now)
  }

  /** The due wake that comes first, if any is due. */
  method FirstDue(s: Snapshot, now: int) returns (r: Option<Id>)
    ensures r.None? ==> forall id :: id in s.wakes ==> !Due(s.wakes[id], now)
    ensures r.Some? ==> r.value in s.wakes && Due(s.wakes[r.value], now)
    ensures r.Some? ==> forall id :: id in s.wakes && Due(s.wakes[id], now) ==> NotAfter(s.wakes[r.value], s.wakes[id])
  {
    hide CharsBefore;
    var todo := s.wakes.Keys;
    r := None;
    while todo != {}
      invariant todo <= s.wakes.Keys
      invariant r.None? ==> forall id :: id in s.wakes && id !in todo ==> !Due(s.wakes[id], now)
      invariant r.Some? ==> r.value in s.wakes && Due(s.wakes[r.value], now)
      invariant r.Some? ==> forall id :: id in s.wakes && id !in todo && Due(s.wakes[id], now) ==>
                                           NotAfter(s.wakes[r.value], s.wakes[id])
      decreases todo
    {
      var id :| id in todo;
      todo := todo - {id};
      if Due(s.wakes[id], now) {
        CharsTotal(s.wakes[id].wakeId, s.wakes[id].wakeId);
        if r.None? {
          r := Some(id);
        } else {
          CharsTotal(s.wakes[id].wakeId, s.wakes[r.value].wakeId);
          if NotAfter(s.wakes[id], s.wakes[r.value]) {
            forall other | other in s.wakes && other !in todo && other != id && Due(s.wakes[other], now)
              ensures NotAfter(s.wakes[id], s.wakes[other])
            {
              NotAfterTransitive(s.wakes[id], s.wakes[r.value], s.wakes[other]);
            }
            r := Some(id);
          }
        }
      }
    }
  }

  lemma NotAfterTransitive(a: Wake, b: Wake, c: Wake)
    requires NotAfter(a, b) && NotAfter(b, c)
    ensures NotAfter(a, c)
  {
    hide CharsBefore;
    if a.dueAt == b.dueAt == c.dueAt {
      CharsTransitive(a.wakeId, b.wakeId, c.wakeId);
    }
  }

  // ---------------------------------------------------------------- what one launch does in a quiet journal

  function Recorded(fate: RunFate): Option<bool> {
    match fate
    case Ended(completed) => Some(completed)
    case Broke(recorded) => recorded
    case Cut(recorded) => recorded
    case _ => None
  }

  /** The run of a wake begins: it is not known to have started before. */
  predicate Begins(log: seq<Commit>, id: Id, fate: RunFate) {
    !fate.RefusedEarly? && !fate.CancelledEarly? && !HasStarted(log, id)
  }

  function OutcomeOf(log: seq<Commit>, id: Id, fate: RunFate): RunOutcome {
    if fate.CancelledEarly? then Stopped
    else if fate.RefusedEarly? || HasStarted(log, id) then Raised
    else match fate
      case Ended(completed) => Returned(completed)
      case Cut(_) => Stopped
      case _ => Raised
  }

  /** The wake status an outcome leads to. */
  function StatusOf(outcome: RunOutcome): WakeStatus {
    match outcome
    case Returned(completed) => if completed then Completed else Failed
    case Raised => Failed
    case Stopped => Running
  }

  /** What a restart makes of a wake, from the records of its run alone. */
  function Reconciled(log: seq<Commit>, id: Id, status: WakeStatus): WakeStatus {
    if !status.Running? then status
    else if HasCompleted(log, id) then Completed
    else if FindCommit(log, FinishedCommit(id)).Some? then Failed
    else if HasStarted(log, id) then Interrupted
    else Running
  }

  /** The run of one wake may have started and finished; every other run stands as it was. */
  ghost predicate RunsMoved(log: seq<Commit>, after: seq<Commit>, id: Id, fate: RunFate) {
    && HasStarted(after, id) == (HasStarted(log, id) || Begins(log, id, fate))
    && HasCompleted(after, id) == (HasCompleted(log, id) || (Begins(log, id, fate) && Recorded(fate) == Some(true)))
  }

  ghost predicate SameRuns(log: seq<Commit>, after: seq<Commit>) {
    forall id :: HasStarted(after, id) == HasStarted(log, id) && FindCommit(after, FinishedCommit(id)) == FindCommit(log, FinishedCommit(id))
  }

  lemma StateCommitRuns(log: seq<Commit>, c: Commit)
    requires c.id.StateCommit?
    ensures SameRuns(log, log + [c])
  {
    hide FindCommit;
    forall id ensures HasStarted(log + [c], id) == HasStarted(log, id)
      ensures FindCommit(log + [c], FinishedCommit(id)) == FindCommit(log, FinishedCommit(id))
    {
      FindAppend(log, c, StartedCommit(id));
      FindAppend(log, c, FinishedCommit(id));
    }
  }

  /** When does a settled wake agree with the record of its run, in one process? Exactly unless the
      run was already recorded as completed when the clock launched it again, or broke after
      recording that it completed. */
  lemma SettledAgrees(log: seq<Commit>, after: seq<Commit>, id: Id, fate: RunFate)
    requires Deserved(log) && RunsMoved(log, after, id, fate)
    requires !StatusOf(OutcomeOf(log, id, fate)).Running?
    ensures (StatusOf(OutcomeOf(log, id, fate)).Completed? <==> HasCompleted(after, id))
       <==> !(HasCompleted(log, id) || (Begins(log, id, fate) && fate == Broke(Some(true))))
  {
    hide Now, Replay, Changes, FindCommit;
    if HasCompleted(log, id) {
      assert HasStarted(log, id);
    }
  }

  /** The plan says completed exactly if the record of its run does. */
  ghost predicate Tells(log: seq<Commit>, id: Id) {
    id in Now(log).wakes && (Now(log).wakes[id].status.Completed? <==> HasCompleted(log, id))
  }

  /** The launch of a wake will deny a completed run: it was recorded before, or this run records it and
      then breaks. */
  ghost predicate Denies(log: seq<Commit>, id: Id, fate: RunFate) {
    HasCompleted(log, id) || (Begins(log, id, fate) && fate == Broke(Some(true)))
  }

  lemma DeliveredTells(log: seq<Commit>, after: seq<Commit>, now: int, id: Id, fate: RunFate)
    requires Kept(log, true) && Delivered(log, after, now, fate, Ran(id))
    ensures Tells(after, id) <==> !Denies(log, id, fate)
  {
    hide Now, FindCommit, Honest, NotAfter, Reserved;
    SettledAgrees(log, after, id, fate);
  }

  /** What is due after a recovery has no completed run. */
  lemma RecoveredUnfinished(log: seq<Commit>, ready: seq<Commit>, id: Id, now: int)
    requires Kept(ready, true) && Recovered(log, ready, {}) && id in Now(ready).wakes && Due(Now(ready).wakes[id], now)
    ensures !HasCompleted(ready, id)
  {
    if Now(ready).wakes[id].status.Pending? {
      NothingStarted(ready, id);
      KeptMeansCompleted(ready, id);
    }
    hide Now, FindCommit, Honest, Reserved;
  }

  lemma SameVersion(log: seq<Commit>, later: seq<Commit>)
    requires log <= later && Honest(log) && Honest(later) && Now(later).version == Now(log).version
    ensures Now(later) == Now(log)
  {
    hide Scoped, ChangesIn, GoodLog, Replay, Changes, Honest;
    NowCoherent(log);
    NowCoherent(later);
    ScopedPrefix(later, |log|);
    assert later[..|log|] == log;
    assert Changes(later) == Changes(log);
  }

  lemma ReservedNow(log: seq<Commit>)
    requires Kept(log, true)
    ensures Honest(log) && Coherent(Now(log)) && Reserved(Now(log), CommandsOf(Changes(log)))
  {
    hide Honest, Coherent, Changes, Replay, Reserved;
    NowCoherent(log);
  }

  lemma KnownCommand(log: seq<Commit>, c: Change)
    requires c in Changes(log)
    ensures c.commandId in CommandsOf(Changes(log))
  {
    hide Changes;
    CommandsOfKeys(Changes(log));
    var i :| 0 <= i < |Changes(log)| && Changes(log)[i] == c;
  }

  class PersistentBotClock {
    const state: JournalBotState
    const runs: nat -> RunFate
    /** The identity each launch gives its execution. */
    const executions: nat -> nat
    var initialized: bool
    var launches: nat

    ghost predicate Valid()
      reads this, state, state.world
    {
      state.Valid() && state.world.strict
    }

    ghost function Log(): seq<Commit>
      reads state, state.world
    {
      state.world.log
    }

    constructor (state: JournalBotState, runs: nat -> RunFate, executions: nat -> nat)
      requires state.Valid() && state.world.strict
      ensures Valid() && this.state == state && this.runs == runs && this.executions == executions && !initialized && launches == 0
    {
      this.state, this.runs, this.executions, initialized, launches := state, runs, executions, false, 0;
    }

    /** `start` of the ledger: an existing start record refuses the run, otherwise it is written. */
    method Begin(id: Id, execution: nat) returns (stopped: Option<RunOutcome>)
      requires Valid() && Claimed(Now(Log()), id)
      modifies state.world
      ensures Valid() && old(Log()) <= Log() && old(state.world.clock) <= state.world.clock
      ensures stopped.None? ==> HasStarted(Log(), id) && StartedBy(Log(), id, execution)
      ensures HasStarted(old(Log()), id) ==> stopped.Some?
      ensures stopped == Some(Raised) ==> HasStarted(Log(), id)
      ensures stopped.Some? ==> !stopped.value.Returned?
      ensures old(state.world.Quiet()) ==>
                && state.world.Quiet() && state.world.clock == old(state.world.clock)
                && stopped == (if HasStarted(old(Log()), id) then Some(Raised) else None)
                && Log() == old(Log()) + if HasStarted(old(Log()), id) then [] else [StartCommit(id, execution, state.position)]
    {
      hide Kept, InStep, Claimed, Now, Lasting, FindCommit, Changes, World.Quiet;
      ghost var first := Log();
      var known, lost := state.world.Find(StartedCommit(id));
      InStepStable(first, Log(), state.position, state.snapshot, state.commands);
      if lost.Lost? {
        return Some(Stopped);
      }
      if known.Some? {
        assert old(Log()) + [] == old(Log());
        return Some(Raised);
      }
      KeptHonest(Log(), true);
      ClaimedLater(first, Log(), id);
      ghost var second := Log();
      StartLasting(Log(), true, id, execution, state.position);
      var started := state.world.Append(StartCommit(id, execution, state.position));
      InStepStable(second, Log(), state.position, state.snapshot, state.commands);
      if started.Unknown? {
        return Some(Stopped);
      }
      if started.Refused? {
        return Some(Raised);
      }
      return None;
    }

    /** `finish` of the ledger. */
    method Finish(id: Id, completed: bool) returns (stopped: Option<RunOutcome>)
      requires Valid() && HasStarted(Log(), id)
      modifies state.world
      ensures Valid() && old(Log()) <= Log() && old(state.world.clock) <= state.world.clock
      ensures stopped.None? && completed ==> HasCompleted(Log(), id)
      ensures stopped.Some? ==> !stopped.value.Returned?
      ensures old(state.world.Quiet()) && FindCommit(old(Log()), FinishedCommit(id)).None? ==>
                && state.world.Quiet() && state.world.clock == old(state.world.clock) && stopped.None?
                && Log() == old(Log()) + [FinishCommit(id, state.position, completed)]
    {
      hide Kept, InStep, Lasting, FindCommit, World.Quiet;
      ghost var first := Log();
      FinishLasting(Log(), true, id, state.position, completed);
      var finished := state.world.Append(FinishCommit(id, state.position, completed));
      InStepStable(first, Log(), state.position, state.snapshot, state.commands);
      if finished.Unknown? {
        return Some(Stopped);
      }
      if finished.Refused? {
        return Some(Raised);
      }
      return None;
    }

    /** One cognition run with its two records. It begins only when no start is recorded, and it is
        reported as completed only when that is what its record says. */
    method Cognize(id: Id) returns (out: RunOutcome)
      requires Valid() && Claimed(Now(Log()), id)
      modifies this`launches, state.world
      ensures Valid() && old(Log()) <= Log() && launches == old(launches) + 1
      ensures old(state.world.clock) <= state.world.clock
      ensures out == Returned(true) ==> HasCompleted(Log(), id)
      ensures out.Returned? ==> StartedBy(Log(), id, executions(old(launches))) && !HasStarted(old(Log()), id)
      ensures old(state.world.Quiet()) ==>
                && state.world.Quiet() && state.world.clock == old(state.world.clock)
                && out == OutcomeOf(old(Log()), id, runs(old(launches)))
                && Now(Log()) == Now(old(Log())) && RunsMoved(old(Log()), Log(), id, runs(old(launches)))
    {
      hide Kept, InStep, Claimed, Now, FindCommit, Changes, World.Quiet, HasCompleted, HasStarted, StartedBy;
      var fate, execution := runs(launches), executions(launches);
      launches := launches + 1;
      if fate.RefusedEarly? {
        return Raised;
      }
      if fate.CancelledEarly? {
        return Stopped;
      }
      var stopped := Begin(id, execution);
      RunStartedState(old(Log()), id, execution, state.position);
      NotStarted(old(Log()), id);
      if stopped.Some? {
        assert old(Log()) + [] == old(Log());
        return stopped.value;
      }
      var recorded := Recorded(fate);
      if recorded.Some? {
        ghost var third := Log();
        stopped := Finish(id, recorded.value);
        KeptHonest(Log(), true);
        SoleStarter(third, Log(), id, execution, execution);
        RunFinishedState(third, id, state.position, recorded.value);
        if stopped.Some? {
          return stopped.value;
        }
      }
      match fate
      case Ended(completed) => return Returned(completed);
      case Cut(_) => return Stopped;
      case _ => return Raised;
    }

    /** `_settle`: retries until the wake of a claimed delivery is settled, by this clock or by another
        one. Only an interruption leaves it unsettled. */
    method Settle(id: Id, status: WakeStatus, detail: string) returns (r: Option<Error>)
      requires Valid() && Claimed(Now(Log()), id)
      requires status.Settled() && !status.Cancelled? && (status.Completed? ==> HasCompleted(Log(), id))
      modifies state, state.world
      ensures Valid() && old(Log()) <= Log() && old(state.world.clock) <= state.world.clock
      ensures r.None? || r == Some(CallInterrupted) || r == Some(CommandReused)
      ensures r != Some(CallInterrupted) ==> id in Now(Log()).wakes && Now(Log()).wakes[id].status.Settled()
      ensures old(state.world.Quiet()) ==>
                state.world.Quiet() && r.None? && QuietSettle(old(Log()), Log(), id, status, detail)
    {
      hide Kept, InStep, Claimed, Now, FindCommit, Changes, World.Quiet, HasCompleted, Founded, Accepts, WellFormed, Coherent;
      hide Reserved, Projected, StatusChange, QuietApply, QuietSettle, Evolves;
      ghost var quiet := state.world.Quiet();
      while true
        invariant Valid() && old(Log()) <= Log() && old(state.world.clock) <= state.world.clock
        invariant Claimed(Now(Log()), id) && (status.Completed? ==> HasCompleted(Log(), id))
        invariant quiet ==> state.world.Quiet() && Log() == old(Log())
        decreases if state.world.clock < |state.world.traffic| then |state.world.traffic| - state.world.clock else 0
      {
        ghost var before := Log();
        state.world.QuietMeans();
        var read := state.Read();
        CarryOver(before, Log(), id, status);
        if read.Err? {
          return Some(read.error);
        }
        var s := read.value;
        NowIs(Log());
        ReservedNow(Log());
        ClaimedMeans(s, id);
        if !s.wakes[id].status.Running? {
          SettleDone(old(Log()), Log(), id, status, detail);
          return None;
        }
        var change := StatusChange(RESULT + id, s, id, status, detail);
        ResultAcceptable(Log(), id, status, detail);
        ghost var seen := Log();
        ghost var stilled := state.world.Quiet();
        ghost var ticks := state.world.clock;
        var applied := state.Apply(change);
        CarryOver(seen, Log(), id, status);
        NowIs(Log());
        ReservedNow(Log());
        if stilled {
          QuietResult(seen, Log(), id, status, detail, state.snapshot, applied);
        }
        if applied.Ok? {
          AppliedResult(Log(), id, change);
          return None;
        }
        if applied.error.CallInterrupted? {
          return Some(CallInterrupted);
        }
        if !applied.error.Conflict? {
          RefusedResult(seen, Log(), id, status, detail, state.snapshot, state.commands, applied.error);
          return Some(applied.error);
        }
      }
    }

    /** `_launch`: the run, then its outcome; a cancelled run leaves the wake as it is. */
    method Launch(id: Id) returns (r: Option<Error>)
      requires Valid() && Claimed(Now(Log()), id)
      modifies this`launches, state, state.world
      ensures Valid() && old(Log()) <= Log() && launches <= old(launches) + 1
      ensures r.None? || r == Some(CallInterrupted) || r == Some(CommandReused)
      ensures r != Some(CallInterrupted) ==> id in Now(Log()).wakes && Now(Log()).wakes[id].status.Settled()
      ensures old(state.world.Quiet()) ==>
                && state.world.Quiet() && launches == old(launches) + 1
                && QuietLaunch(old(Log()), Log(), id, runs(old(launches)), r)
    {
      hide Kept, InStep, Claimed, Now, FindCommit, Changes, World.Quiet, HasCompleted, HasStarted, RunsMoved, QuietSettle, QuietLaunch;
      ghost var quiet, times := state.world.Quiet(), launches;
      var read := state.Read();
      if read.Err? {
        return Some(read.error);
      }
      CarryOver(old(Log()), Log(), id, Running);
      ghost var seen := Log();
      var outcome := Cognize(id);
      ghost var ran := Log();
      CarryOver(seen, ran, id, Running);
      match outcome {
        case Stopped =>
          if quiet {
            LaunchStopped(old(Log()), ran, id, runs(times));
          }
          return Some(CallInterrupted);
        case Raised =>
          r := Settle(id, Failed, "the launch failed");
        case Returned(completed) =>
          r := Settle(id, if completed then Completed else Failed, "the run returned");
      }
      if quiet {
        LaunchSettled(old(Log()), ran, Log(), id, runs(times), if outcome.Raised? then "the launch failed" else "the run returned");
      }
    }

    /** The record of a run, read in the order the clock reads it, and what it means for the wake. */
    method Verdict(id: Id) returns (status: WakeStatus, lost: bool)
      requires Valid() && Claimed(Now(Log()), id)
      modifies state.world
      ensures Valid() && old(Log()) <= Log() && old(state.world.clock) <= state.world.clock && Claimed(Now(Log()), id)
      ensures !status.Pending? && !status.Cancelled? && (status.Completed? ==> HasCompleted(Log(), id))
      ensures old(state.world.Quiet()) ==>
                && state.world.Quiet() && Log() == old(Log()) && !lost
                && status == Reconciled(old(Log()), id, Running)
    {
      hide Kept, InStep, Claimed, Now, FindCommit, Changes, World.Quiet;
      ghost var first := Log();
      var finished, lost0 := state.world.Find(FinishedCommit(id));
      InStepStable(first, Log(), state.position, state.snapshot, state.commands);
      CarryOver(first, Log(), id, Running);
      KeptMeans(Log(), id);
      ghost var second := Log();
      var started, lost1 := state.world.Find(StartedCommit(id));
      InStepStable(second, Log(), state.position, state.snapshot, state.commands);
      status := if finished.Some? && finished.value.fact == RunFinished(id, true) then Completed
                else if finished.Some? then Failed
                else if started.Some? then Interrupted
                else Running;
      CarryOver(second, Log(), id, status);
      lost := lost0.Lost? || lost1.Lost?;
    }

    /** One delivery without an outcome: its records are read and settle it, unless its run never started. */
    method Judge(id: Id) returns (r: Option<Error>)
      requires Valid() && Claimed(Now(Log()), id)
      modifies state, state.world
      ensures Valid() && old(Log()) <= Log()
      ensures r.None? || r == Some(CallInterrupted) || r == Some(CommandReused)
      ensures old(state.world.Quiet()) ==>
                && state.world.Quiet() && r.None?
                && var status := Reconciled(old(Log()), id, Running);
                   if status.Running? then Log() == old(Log()) else QuietSettle(old(Log()), Log(), id, status, "judged after a restart")
    {
      hide Kept, InStep, Claimed, Now, FindCommit, Changes, World.Quiet, HasCompleted, HasStarted, QuietSettle, Reconciled;
      var status, lost := Verdict(id);
      if lost {
        return Some(CallInterrupted);
      }
      if status.Running? {
        return None;
      }
      r := Settle(id, status, "judged after a restart");
    }

    /** `initialize`: after a restart, every delivery without an outcome is judged by the records of
        its run; one whose run never started stays claimed. */
    method Initialize() returns (r: Option<Error>)
      requires Valid()
      modifies this`initialized, state, state.world
      ensures Valid() && old(Log()) <= Log()
      ensures r.None? ==> initialized
      ensures r.None? || r == Some(CallInterrupted) || r == Some(CommandReused)
      ensures old(initialized) ==> r.None? && Log() == old(Log()) && state.world.clock == old(state.world.clock)
      ensures old(state.world.Quiet()) ==> state.world.Quiet() && r.None?
      ensures old(state.world.Quiet()) && !old(initialized) ==> Recovered(old(Log()), Log(), {})
    {
      hide Kept, InStep, Claimed, Now, FindCommit, Changes, World.Quiet, HasCompleted, HasStarted, QuietSettle, Recovered, Reconciled;
      if initialized {
        return None;
      }
      ghost var quiet := state.world.Quiet();
      var read := state.Read();
      if read.Err? {
        return Some(read.error);
      }
      var s := read.value;
      NowIs(Log());
      ghost var read0 := Log();
      var todo := set id | id in s.wakes && s.wakes[id].status.Running?;
      RecoveredFirst(read0, s, todo);
      while todo != {}
        invariant Valid() && read0 <= Log()
        invariant quiet ==> state.world.Quiet() && read0 == old(Log()) && Recovered(read0, Log(), todo)
        invariant forall id :: id in todo ==> id in s.wakes && s.wakes[id].status.Running?
        decreases todo
      {
        var id :| id in todo;
        ghost var before, left := Log(), todo;
        RunningClaimed(s, id);
        assert s == Now(read0);
        CarryOver(read0, before, id, Running);
        r := Judge(id);
        if r.Some? {
          return r;
        }
        todo := todo - {id};
        if quiet {
          RecoveredNext(read0, before, Log(), left, id, Reconciled(before, id, Running), "judged after a restart");
        }
      }
      initialized := true;
      return None;
    }

    /** The claim of a pending wake: it stands in the journal before anything is launched. */
    method Claim(id: Id, s: Snapshot) returns (r: Option<Error>)
      requires Valid() && s == Now(Log()) && id in s.wakes && s.wakes[id].status.Pending?
      modifies state, state.world
      ensures Valid() && old(Log()) <= Log()
      ensures r.None? ==> Claimed(Now(Log()), id)
      ensures old(state.world.Quiet()) ==>
                && state.world.Quiet() && r.None? && SameRuns(old(Log()), Log())
                && OnlyWake(Now(old(Log())), Now(Log()), id) && id in Now(Log()).wakes && Now(Log()).wakes[id].status.Running?
    {
      hide Kept, InStep, Claimed, Now, FindCommit, Changes, World.Quiet, HasCompleted, Founded, Accepts, WellFormed;
      hide StatusChange, QuietApply, SameRuns, OnlyWake;
      ghost var quiet := state.world.Quiet();
      NowIs(Log());
      ClaimAcceptable(Log(), id);
      var change := StatusChange(CLAIM + id, s, id, Running, s.wakes[id].detail);
      var applied := state.Apply(change);
      if quiet {
        QuietClaim(old(Log()), Log(), id, state.snapshot, applied);
      }
      if applied.Err? {
        return Some(applied.error);
      }
      AppliedClaim(Log(), id, change);
      return None;
    }

    /** `evaluate_once`: claims the first due wake, then launches it. Nothing is launched that is not
        claimed in the journal; losing the claim to another change launches nothing. In a quiet journal
        `ready` is the journal after recovery, if this call was the first, and decides everything else:
        whether a wake was launched, which, and whether what stands in its plan is what its run recorded. */
    method EvaluateOnce(now: int) returns (step: Step, ghost ready: seq<Commit>)
      requires Valid()
      modifies this`initialized, this`launches, state, state.world
      ensures Valid() && old(Log()) <= Log()
      ensures (step.Idle? || step.Outpaced?) ==> launches == old(launches)
      ensures launches <= old(launches) + 1
      ensures step.Ran? ==> step.wakeId in Now(Log()).wakes && Now(Log()).wakes[step.wakeId].status.Settled()
      ensures old(state.world.Quiet()) ==> state.world.Quiet() && !step.Outpaced?
      ensures old(state.world.Quiet()) ==> initialized && (if old(initialized) then ready == old(Log()) else Recovered(old(Log()), ready, {}))
      ensures old(state.world.Quiet()) ==>
                && (step.Idle? <==> forall id :: id in Now(ready).wakes ==> !Due(Now(ready).wakes[id], now))
                && (step.Idle? ==> Log() == ready) && (step.Halted? ==> step.launched.Some?)
                && (!step.Idle? ==> Delivered(ready, Log(), now, runs(old(launches)), step) && launches == old(launches) + 1)
      ensures old(state.world.Quiet()) && step.Ran? ==>
                (Tells(Log(), step.wakeId) <==> !Denies(ready, step.wakeId, runs(old(launches))))
      ensures old(state.world.Quiet()) && step.Ran? && !old(initialized) ==> !HasCompleted(ready, step.wakeId)
    {
      hide Kept, InStep, Claimed, Now, FindCommit, Changes, World.Quiet, HasCompleted, HasStarted, QuietLaunch, Recovered, Due;
      hide NotAfter, Delivered, SameRuns, OnlyWake;
      hide Tells, Denies;
      ghost var quiet, prepared := state.world.Quiet(), initialized;
      var failed := Initialize();
      ready := Log();
      if failed.Some? {
        return Halted(None), ready;
      }
      var read := state.Read();
      if read.Err? {
        return Halted(None), ready;
      }
      var s := read.value;
      NowIs(Log());
      var due := FirstDue(s, now);
      if due.None? {
        return Idle, ready;
      }
      var id := due.value;
      ghost var seen := Log();
      ghost var claimed := seen;
      if s.wakes[id].status.Pending? {
        var refused := Claim(id, s);
        if refused.Some? {
          return (if refused.value.Conflict? then Outpaced else Halted(None)), ready;
        }
        claimed := Log();
      } else {
        DueClaimed(s, id, now);
      }
      var ended := Launch(id);
      if quiet {
        DeliveredBy(seen, claimed, Log(), now, id, runs(old(launches)), ended);
        if ended.None? {
          DeliveredTells(seen, Log(), now, id, runs(old(launches)));
          if !prepared {
            RecoveredUnfinished(old(Log()), seen, id, now);
          }
        }
      }
      if ended.Some? {
        return Halted(Some(id)), ready;
      }
      return Ran(id), ready;
    }
  }

  /** At most this wake differs. */
  ghost predicate OnlyWake(s: Snapshot, after: Snapshot, id: Id) {
    && after.wakes.Keys == s.wakes.Keys
    && forall other :: other in s.wakes && other != id ==> after.wakes[other] == s.wakes[other]
  }

  /** One launch in a quiet journal: the run moves on, and the wake takes the status of its outcome. */
  ghost predicate QuietLaunch(log: seq<Commit>, after: seq<Commit>, id: Id, fate: RunFate, r: Option<Error>) {
    && RunsMoved(log, after, id, fate)
    && r == (if OutcomeOf(log, id, fate).Stopped? then Some(CallInterrupted) else None)
    && id in Now(log).wakes && OnlyWake(Now(log), Now(after), id)
    && (Now(log).wakes[id].status.Running? ==> Now(after).wakes[id].status == StatusOf(OutcomeOf(log, id, fate)))
  }

  lemma LaunchStopped(log: seq<Commit>, after: seq<Commit>, id: Id, fate: RunFate)
    requires Claimed(Now(log), id) && Now(after) == Now(log) && RunsMoved(log, after, id, fate)
    requires OutcomeOf(log, id, fate).Stopped?
    ensures QuietLaunch(log, after, id, fate, Some(CallInterrupted))
  {
    hide Now, FindCommit;
  }

  lemma LaunchSettled(log: seq<Commit>, ran: seq<Commit>, after: seq<Commit>, id: Id, fate: RunFate, detail: string)
    requires Now(ran) == Now(log) && RunsMoved(log, ran, id, fate) && !OutcomeOf(log, id, fate).Stopped?
    requires QuietSettle(ran, after, id, StatusOf(OutcomeOf(log, id, fate)), detail)
    ensures QuietLaunch(log, after, id, fate, None)
  {
    hide Now, FindCommit;
  }

  lemma KeptMeans(log: seq<Commit>, id: Id)
    requires Kept(log, true)
    ensures FindCommit(log, FinishedCommit(id)).Some? ==> HasStarted(log, id)
  {
    hide Now, Honest, FindCommit, Reserved;
  }

  lemma RunningClaimed(s: Snapshot, id: Id)
    requires id in s.wakes && s.wakes[id].status.Running?
    ensures Claimed(s, id)
  {}

  lemma DueClaimed(s: Snapshot, id: Id, now: int)
    requires id in s.wakes && Due(s.wakes[id], now) && !s.wakes[id].status.Pending?
    ensures s.wakes[id].status.Running? && Claimed(s, id)
  {}

  /** Recovery with the wakes in `todo` still to be judged: the judged ones carry the status their
      records give, all others are untouched, and no run moved. */
  ghost predicate Recovered(log: seq<Commit>, after: seq<Commit>, todo: set<Id>) {
    && SameRuns(log, after)
    && Now(after).wakes.Keys == Now(log).wakes.Keys
    && forall id :: id in Now(log).wakes ==>
         && (!Now(log).wakes[id].status.Running? ==> Now(after).wakes[id] == Now(log).wakes[id])
         && Now(after).wakes[id].status
            == (if id in todo then Now(log).wakes[id].status else Reconciled(log, id, Now(log).wakes[id].status))
  }

  lemma RecoveredFirst(log: seq<Commit>, s: Snapshot, todo: set<Id>)
    requires s == Now(log) && todo == set id | id in s.wakes && s.wakes[id].status.Running?
    ensures Recovered(log, log, todo)
  {
    hide Now, FindCommit;
  }

  lemma RecoveredNext(log: seq<Commit>, before: seq<Commit>, after: seq<Commit>, todo: set<Id>, id: Id, status: WakeStatus, detail: string)
    requires Recovered(log, before, todo) && id in todo && id in Now(log).wakes && Now(log).wakes[id].status.Running?
    requires status == Reconciled(before, id, Running)
    requires if status.Running? then after == before else QuietSettle(before, after, id, status, detail)
    ensures Recovered(log, after, todo - {id})
  {
    hide Now, FindCommit, Reconciled, SameRuns;
    SameReconciled(log, before, id, Running);
    if !status.Running? {
      SameRunsOn(log, before, after);
      assert Now(after).wakes == Now(before).wakes[id := WithStatus(Now(before).wakes[id], status, detail)];
    }
  }

  lemma SameReconciled(log: seq<Commit>, after: seq<Commit>, id: Id, status: WakeStatus)
    requires SameRuns(log, after)
    ensures Reconciled(after, id, status) == Reconciled(log, id, status)
  {
    hide FindCommit;
  }

  lemma SameRunsOn(a: seq<Commit>, b: seq<Commit>, c: seq<Commit>)
    requires SameRuns(a, b) && SameRuns(b, c)
    ensures SameRuns(a, c)
  {
    hide FindCommit;
  }

  /** The claim of a pending wake is acceptable in the journal it was read from. */
  lemma ClaimAcceptable(log: seq<Commit>, id: Id)
    requires Kept(log, true) && id in Now(log).wakes && Now(log).wakes[id].status.Pending?
    ensures var c := StatusChange(CLAIM + id, Now(log), id, Running, Now(log).wakes[id].detail);
            WellFormed(c) && Accepts(Now(log), c) && Founded(log, c) && c.commandId == CLAIM + id && CLAIM + id !in CommandsOf(Changes(log))
  {
    hide Now, Honest, FindCommit, Deserved, Accepts, HasCompleted, Signed;
    ReservedNow(log);
    StatusProjected(CLAIM + id, Now(log), id, Running, Now(log).wakes[id].detail);
    ClaimSigned(Now(log), id);
  }

  lemma AppliedClaim(log: seq<Commit>, id: Id, change: Change)
    requires Kept(log, true) && change in Changes(log)
    requires change.commandId == CLAIM + id
    ensures Claimed(Now(log), id)
  {
    hide Honest, Now, Changes;
    KnownCommand(log, change);
    ReservedNow(log);
  }

  lemma QuietClaim(log: seq<Commit>, after: seq<Commit>, id: Id, snapshot: Snapshot, r: Result<Snapshot, Error>)
    requires Kept(log, true) && Kept(after, true) && id in Now(log).wakes && Now(log).wakes[id].status.Pending?
    requires QuietApply(log, StatusChange(CLAIM + id, Now(log), id, Running, Now(log).wakes[id].detail), after, snapshot, r)
    ensures r.Ok? && SameRuns(log, after) && OnlyWake(Now(log), Now(after), id) && id in Now(after).wakes && Now(after).wakes[id].status.Running?
  {
    hide Honest, FindCommit, Deserved, Accepts, HasCompleted, Signed, Founded, Projected, Scoped, ChangesIn, Replay, Changes;
    ClaimAcceptable(log, id);
    QuietStatus(log, after, CLAIM + id, id, Running, Now(log).wakes[id].detail, snapshot, r);
  }

  /** A status change that is acceptable and new, applied while nobody else writes. */
  lemma QuietStatus(log: seq<Commit>, after: seq<Commit>, commandId: string, id: Id, status: WakeStatus, detail: string, snapshot: Snapshot,
      r: Result<Snapshot, Error>)
    requires Kept(log, true) && id in Now(log).wakes && Allowed(Now(log).wakes[id].status, status)
    requires commandId !in CommandsOf(Changes(log))
    requires QuietApply(log, StatusChange(commandId, Now(log), id, status, detail), after, snapshot, r)
    ensures r.Ok? && SameRuns(log, after)
    ensures Now(after) == Snapshot(Now(log).version + 1, Now(log).goals, Now(log).wakes[id := WithStatus(Now(log).wakes[id], status, detail)])
  {
    hide Honest, FindCommit, Deserved, Accepts, Projected, Scoped, ChangesIn, Replay, Changes, CommandsOf, Coherent, Reserved, Allowed;
    ReservedNow(log);
    var change := StatusChange(commandId, Now(log), id, status, detail);
    StatusProjected(commandId, Now(log), id, status, detail);
    var c := StateCommitOf(Now(log).version + 1, |Scoped(log)|, change);
    StateCommitRuns(log, c);
    ScopedAppend(log, c);
    ReplayNext(Changes(log), change);
  }

  /** A delivery in a quiet journal: the first due wake was launched, its run moved on accordingly,
      and the wake ends with the status of the outcome. */
  ghost predicate Delivered(log: seq<Commit>, after: seq<Commit>, now: int, fate: RunFate, step: Step) {
    var launched := if step.Ran? then Some(step.wakeId) else if step.Halted? then step.launched else None;
    && launched.Some?
    && var id := launched.value;
      && id in Now(log).wakes && Due(Now(log).wakes[id], now)
      && (forall other :: other in Now(log).wakes && Due(Now(log).wakes[other], now) ==> NotAfter(Now(log).wakes[id], Now(log).wakes[other]))
      && RunsMoved(log, after, id, fate)
      && OnlyWake(Now(log), Now(after), id) && Now(after).wakes[id].status == StatusOf(OutcomeOf(log, id, fate))
      && (step.Halted? <==> OutcomeOf(log, id, fate).Stopped?)
  }

  lemma DeliveredBy(log: seq<Commit>, claimed: seq<Commit>, after: seq<Commit>, now: int, id: Id, fate: RunFate, ended: Option<Error>)
    requires id in Now(log).wakes && Due(Now(log).wakes[id], now)
    requires forall other :: other in Now(log).wakes && Due(Now(log).wakes[other], now) ==> NotAfter(Now(log).wakes[id], Now(log).wakes[other])
    requires claimed == log || (SameRuns(log, claimed) && OnlyWake(Now(log), Now(claimed), id))
    requires id in Now(claimed).wakes && Now(claimed).wakes[id].status.Running?
    requires QuietLaunch(claimed, after, id, fate, ended)
    ensures Delivered(log, after, now, fate, if ended.Some? then Halted(Some(id)) else Ran(id))
  {
    hide Now, FindCommit, NotAfter, Due;
  }

  /** Settling in a quiet journal: a running wake takes the status, any other stays as it is. */
  ghost predicate QuietSettle(log: seq<Commit>, after: seq<Commit>, id: Id, status: WakeStatus, detail: string) {
    && SameRuns(log, after)
    && id in Now(log).wakes
    && var wake := Now(log).wakes[id];
      Now(after) == if wake.status.Running?
                    then Snapshot(Now(log).version + 1, Now(log).goals, Now(log).wakes[id := WithStatus(wake, status, detail)])
                    else Now(log)
  }

  lemma ClaimedMeans(s: Snapshot, id: Id)
    requires Claimed(s, id)
    ensures id in s.wakes && (s.wakes[id].status.Running? || s.wakes[id].status.Settled())
  {}

  lemma SettleDone(log: seq<Commit>, after: seq<Commit>, id: Id, status: WakeStatus, detail: string)
    requires log == after ==> id in Now(log).wakes && !Now(log).wakes[id].status.Running?
    ensures log == after ==> QuietSettle(log, after, id, status, detail)
  {}

  /** What a clock knows about a claimed wake stays true while others write. */
  lemma CarryOver(log: seq<Commit>, later: seq<Commit>, id: Id, status: WakeStatus)
    requires log <= later && Kept(later, true)
    requires Claimed(Now(log), id) && (status.Completed? ==> HasCompleted(log, id))
    ensures Claimed(Now(later), id) && (status.Completed? ==> HasCompleted(later, id))
  {
    hide Now, Claimed, Honest, FindCommit, Deserved;
    ClaimedLater(log, later, id);
    if status.Completed? {
      FindLater(log, later, FinishedCommit(id));
    }
  }

  /** The result of a running wake is a well-formed, accepted, founded change. */
  lemma ResultAcceptable(log: seq<Commit>, id: Id, status: WakeStatus, detail: string)
    requires Kept(log, true) && id in Now(log).wakes && Now(log).wakes[id].status.Running?
    requires status.Settled() && !status.Cancelled? && (status.Completed? ==> HasCompleted(log, id))
    ensures var c := StatusChange(RESULT + id, Now(log), id, status, detail);
            && WellFormed(c) && Accepts(Now(log), c) && Founded(log, c)
            && c.commandId == RESULT + id && c.expectedVersion == Now(log).version && RESULT + id !in CommandsOf(Changes(log))
  {
    hide Now, Honest, FindCommit, Deserved, Accepts, HasCompleted, Signed;
    ReservedNow(log);
    StatusProjected(RESULT + id, Now(log), id, status, detail);
    ResultSigned(Now(log), id, status, detail);
  }

  lemma QuietResult(log: seq<Commit>, after: seq<Commit>, id: Id, status: WakeStatus, detail: string, snapshot: Snapshot,
      r: Result<Snapshot, Error>)
    requires Kept(log, true) && Kept(after, true) && id in Now(log).wakes && Now(log).wakes[id].status.Running?
    requires status.Settled() && !status.Cancelled? && (status.Completed? ==> HasCompleted(log, id))
    requires QuietApply(log, StatusChange(RESULT + id, Now(log), id, status, detail), after, snapshot, r)
    ensures r.Ok? && QuietSettle(log, after, id, status, detail)
    ensures id in Now(after).wakes && Now(after).wakes[id].status == status
  {
    hide Honest, FindCommit, Deserved, Accepts, HasCompleted, Signed, Founded, Projected, Scoped, ChangesIn, Replay, Changes;
    ResultAcceptable(log, id, status, detail);
    QuietStatus(log, after, RESULT + id, id, status, detail, snapshot, r);
  }

  lemma AppliedResult(log: seq<Commit>, id: Id, change: Change)
    requires Kept(log, true) && change in Changes(log) && change.commandId == RESULT + id
    ensures id in Now(log).wakes && Now(log).wakes[id].status.Settled()
  {
    hide Honest, Now, Changes;
    KnownCommand(log, change);
    ReservedNow(log);
  }

  /** Other than for a changed version, a result is refused only because another clock settled the wake. */
  lemma RefusedResult(log: seq<Commit>, later: seq<Commit>, id: Id, status: WakeStatus, detail: string,
      snapshot: Snapshot, commands: map<string, Change>, e: Error)
    requires log <= later && Kept(log, true) && Kept(later, true) && id in Now(log).wakes && Now(log).wakes[id].status.Running?
    requires status.Settled() && !status.Cancelled? && (status.Completed? ==> HasCompleted(log, id))
    requires snapshot == Now(later) && commands == CommandsOf(Changes(later))
    requires e == CommandReused ==> RESULT + id in commands
    requires e != CommandReused ==>
               !Accepts(snapshot, StatusChange(RESULT + id, Now(log), id, status, detail)) && Now(log).version == snapshot.version
    ensures e == CommandReused && id in Now(later).wakes && Now(later).wakes[id].status.Settled()
  {
    hide Honest, Now, Changes, FindCommit, Deserved, Accepts, HasCompleted, Signed, Founded, WellFormed;
    ReservedNow(log);
    ReservedNow(later);
    if e != CommandReused {
      SameVersion(log, later);
      ResultAcceptable(log, id, status, detail);
      assert false;
    }
  }

  /** A run that has not started has not finished. */
  lemma NotStarted(log: seq<Commit>, id: Id)
    requires Kept(log, true)
    ensures !HasStarted(log, id) ==> FindCommit(log, FinishedCommit(id)).None? && !HasCompleted(log, id)
  {
    hide Honest, Now, Reserved;
  }

  lemma RunStartedState(log: seq<Commit>, id: Id, execution: nat, position: nat)
    ensures var after := log + [StartCommit(id, execution, position)];
            && Now(after) == Now(log) && HasStarted(after, id)
            && FindCommit(after, FinishedCommit(id)) == FindCommit(log, FinishedCommit(id))
            && HasCompleted(after, id) == HasCompleted(log, id)
  {
    hide Now, FindCommit, Changes;
    RunCommitState(log, StartCommit(id, execution, position));
    FindAppend(log, StartCommit(id, execution, position), StartedCommit(id));
    FindAppend(log, StartCommit(id, execution, position), FinishedCommit(id));
  }

  lemma RunFinishedState(log: seq<Commit>, id: Id, position: nat, completed: bool)
    ensures var after := log + [FinishCommit(id, position, completed)];
            && Now(after) == Now(log) && HasStarted(after, id) == HasStarted(log, id)
            && (HasCompleted(after, id) <==> completed)
  {
    hide Now, FindCommit, Changes;
    RunCommitState(log, FinishCommit(id, position, completed));
    FindAppend(log, FinishCommit(id, position, completed), StartedCommit(id));
    FindAppend(log, FinishCommit(id, position, completed), FinishedCommit(id));
  }

  // ---------------------------------------------------------------- a delivery cut off after its run completed

  const WAKE: Wake := Wake("w", 0, "check", None, Pending, "")

  /** A clock over a fresh journal with one wake scheduled. */
  method ScheduledClock(fate: RunFate) returns (clock: PersistentBotClock)
    ensures fresh(clock) && fresh(clock.state) && fresh(clock.state.world)
    ensures clock.Valid() && !clock.initialized && clock.state.world.Quiet()
    ensures forall n: nat :: clock.runs(n) == fate
    ensures Now(clock.Log()).wakes == map["w" := WAKE]
  {
    hide Kept, InStep, Changes, Projected, Accepts, Founded, Replay, Scoped, Now;
    var world := new World(true, []);
    var state := new JournalBotState(world);
    var change := Change("schedule", 0, [], [WAKE]);
    ScheduleAccepted(change);
    var applied := state.Apply(change);
    ScheduleApplied(world.log, change, state.snapshot, applied);
    clock := new PersistentBotClock(state, _ => fate, n => n);
  }

  /** A wake is scheduled and delivered; its run records that it completed, and then the delivery is
      cancelled. */
  method CutAfterCompletion() returns (clock: PersistentBotClock)
    ensures fresh(clock) && fresh(clock.state) && fresh(clock.state.world)
    ensures clock.Valid() && clock.initialized && clock.state.world.Quiet()
    ensures forall n: nat :: clock.runs(n) == Cut(Some(true))
    ensures HasCompleted(clock.Log(), "w") && Now(clock.Log()).wakes.Keys == {"w"} && Now(clock.Log()).wakes["w"].status.Running?
  {
    hide Kept, InStep, Claimed, Changes, FindCommit, Replay, Scoped, Now;
    clock := ScheduledClock(Cut(Some(true)));
    NothingStarted(clock.Log(), "w");
    var failed := clock.Initialize();
    assert Due(Now(clock.Log()).wakes["w"], 0);
    var step, ready := clock.EvaluateOnce(0);
  }

  lemma NothingStarted(log: seq<Commit>, id: Id)
    requires Kept(log, true) && id in Now(log).wakes && Now(log).wakes[id].status.Pending?
    ensures !HasStarted(log, id)
  {
    NowIs(log);
    hide Now, Honest, FindCommit, Reserved;
  }

  /** The same process launches the wake again, is refused by the start record and settles it as
      failed; a restart would have read the record and settled it as completed. */
  method RelaunchDeniesCompletion() returns (relaunched: WakeStatus, recovered: WakeStatus)
    ensures relaunched == Failed && recovered == Completed
  {
    hide Kept, InStep, Claimed, Changes, FindCommit, Replay, Now;
    var clock := CutAfterCompletion();
    KeptMeansCompleted(clock.Log(), "w");
    var step, ready := clock.EvaluateOnce(0);
    var again := clock.state.Read();
    NowIs(clock.Log());
    relaunched := if again.Ok? && "w" in again.value.wakes then again.value.wakes["w"].status else Pending;

    var other := CutAfterCompletion();
    var restarted := new PersistentBotClock(other.state, other.runs, n => n);
    var failed := restarted.Initialize();
    again := restarted.state.Read();
    NowIs(restarted.Log());
    recovered := if again.Ok? && "w" in again.value.wakes then again.value.wakes["w"].status else Pending;
  }

  /** The other way: the run records that it completed and then fails to return. The wake is settled as
      failed by the very launch whose run completed. */
  method BrokenAfterCompletion() returns (status: WakeStatus, ghost log: seq<Commit>)
    ensures status == Failed && HasCompleted(log, "w") && "w" in Now(log).wakes && Now(log).wakes["w"].status == status
  {
    hide Kept, InStep, Claimed, Changes, FindCommit, Replay, Scoped, Now;
    var clock := ScheduledClock(Broke(Some(true)));
    NothingStarted(clock.Log(), "w");
    var failed := clock.Initialize();
    assert Due(Now(clock.Log()).wakes["w"], 0);
    var step, ready := clock.EvaluateOnce(0);
    log := clock.Log();
    var again := clock.state.Read();
    NowIs(clock.Log());
    status := if again.Ok? && "w" in again.value.wakes then again.value.wakes["w"].status else Pending;
  }

  lemma KeptMeansCompleted(log: seq<Commit>, id: Id)
    requires Kept(log, true)
    ensures HasCompleted(log, id) ==> HasStarted(log, id)
  {
    hide Now, Honest, Reserved;
  }

  lemma ScheduleAccepted(change: Change)
    requires change == Change("schedule", 0, [], [WAKE])
    ensures WellFormed(change) && Founded([], change) && Accepts(Replay(Changes([])), change)
    ensures change.commandId !in CommandsOf(Changes([]))
  {
    assert change.commandId[0] != RESULT[0] && change.commandId[0] != CLAIM[0];
    NothingWritten();
    assert Replay([]) == EMPTY && CommandsOf([]) == map[];
  }

  lemma ScheduleApplied(log: seq<Commit>, change: Change, snapshot: Snapshot, r: Result<Snapshot, Error>)
    requires change == Change("schedule", 0, [], [WAKE]) && Kept(log, true) && QuietApply([], change, log, snapshot, r)
    ensures Now(log).wakes == map["w" := WAKE]
  {
    hide Kept, Scoped, ChangesIn, Changes;
    ScheduleAccepted(change);
    NothingWritten();
    assert Replay([]) == EMPTY && CommandsOf([]) == map[];
    var c := StateCommitOf(1, |Scoped([])|, change);
    assert log == [] + [c];
    ScopedAppend([], c);
    ReplayNext([], change);
    assert [] + [change] == [change] && [] + [c] == [c];
    assert Changes([c]) == [change];
    assert change.wakes[..0] == [];
    assert PutWakes(map[], []) == map[];
    assert PutWakes(map[], change.wakes) == map["w" := WAKE];
    assert CancelStopped(map[], map["w" := WAKE]) == map["w" := WAKE];
  }
}
