/** The event-sourced Bot (src/aurora_bot/bot/store.py): goals and wakes are a projection of one
    append-only journal that any number of replicas read and extend under optimistic versions. */
module BotState {
  import opened Common

  type Id = string

  datatype GoalStatus = Active | Paused | Reached | Abandoned

  datatype Goal = Goal(goalId: Id, status: GoalStatus, body: string)

  datatype WakeStatus = Pending | Running | Completed | Failed | Interrupted | Cancelled {
    predicate Settled() { !Pending? && !Running? }
  }

  datatype Wake = Wake(wakeId: Id, dueAt: int, message: string, goalId: Option<Id>, status: WakeStatus, detail: string)

  datatype Snapshot = Snapshot(version: nat, goals: map<Id, Goal>, wakes: map<Id, Wake>)

  /** One atomic choice; identities inside one change are distinct, as its constructor checks. */
  datatype Change = Change(commandId: string, expectedVersion: nat, goals: seq<Goal>, wakes: seq<Wake>)

  datatype Error =
    | NotPending | TransitionRefused | UnknownGoal | GoalNotActive
    | CommandReused | Conflict | JournalBroken | NegativeCursor | CallInterrupted

  const EMPTY := Snapshot(0, map[], map[])

  predicate WellFormed(c: Change) {
    && (forall i, j | 0 <= i < j < |c.goals| :: c.goals[i].goalId != c.goals[j].goalId)
    && (forall i, j | 0 <= i < j < |c.wakes| :: c.wakes[i].wakeId != c.wakes[j].wakeId)
  }

  // ---------------------------------------------------------------- projecting one change

  function PutGoals(goals: map<Id, Goal>, changed: seq<Goal>): map<Id, Goal> {
    if changed == [] then goals
    else PutGoals(goals, changed[..|changed| - 1])[changed[|changed| - 1].goalId := changed[|changed| - 1]]
  }

  function PutWakes(wakes: map<Id, Wake>, changed: seq<Wake>): map<Id, Wake> {
    if changed == [] then wakes
    else PutWakes(wakes, changed[..|changed| - 1])[changed[|changed| - 1].wakeId := changed[|changed| - 1]]
  }

  predicate Allowed(before: WakeStatus, after: WakeStatus) {
    || (before.Pending? && (after.Running? || after.Cancelled?))
    || (before.Running? && (after.Completed? || after.Failed? || after.Interrupted?))
  }

  function Lookup(wakes: map<Id, Wake>, id: Id): Option<Wake> {
    if id in wakes then Some(wakes[id]) else None
  }

  /** `_validate_wake_transition`: new wakes are pending; an existing one changes only its status. */
  function TransitionError(previous: Option<Wake>, wake: Wake): Option<Error> {
    if previous.None? then
      if wake.status.Pending? then None else Some(NotPending)
    else
      var p := previous.value;
      if Allowed(p.status, wake.status) && wake.(status := p.status, detail := p.detail) == p then None
      else Some(TransitionRefused)
  }

  function WakeError(goals: map<Id, Goal>, previous: Option<Wake>, wake: Wake): Option<Error> {
    if TransitionError(previous, wake).Some? then TransitionError(previous, wake)
    else if wake.goalId.None? then None
    else if wake.goalId.value !in goals then Some(UnknownGoal)
    else if (wake.status.Pending? || wake.status.Running?) && !goals[wake.goalId.value].status.Active? then Some(GoalNotActive)
    else None
  }

  /** Every wake of the change is acceptable against the snapshot and the changed goals. */
  predicate Accepts(s: Snapshot, c: Change) {
    forall w :: w in c.wakes ==> WakeError(PutGoals(s.goals, c.goals), Lookup(s.wakes, w.wakeId), w).None?
  }

  predicate Stopped(goals: map<Id, Goal>, w: Wake) {
    w.status.Pending? && w.goalId.Some? && w.goalId.value in goals && !goals[w.goalId.value].status.Active?
  }

  function CancelIfStopped(goals: map<Id, Goal>, w: Wake): Wake {
    if Stopped(goals, w) then w.(status := Cancelled, detail := "goal stopped or paused") else w
  }

  function CancelStopped(goals: map<Id, Goal>, wakes: map<Id, Wake>): map<Id, Wake> {
    map id | id in wakes :: CancelIfStopped(goals, wakes[id])
  }

  function Projected(s: Snapshot, c: Change): Snapshot {
    var goals := PutGoals(s.goals, c.goals);
    Snapshot(s.version + 1, goals, CancelStopped(goals, PutWakes(s.wakes, c.wakes)))
  }

  /** Goals are kept under their identity, wakes too, every wake's goal exists, and the goal of a
      pending wake is active. */
  ghost predicate Coherent(s: Snapshot) {
    && (forall g :: g in s.goals ==> s.goals[g].goalId == g)
    && (forall id :: id in s.wakes ==> s.wakes[id].wakeId == id)
    && (forall id :: id in s.wakes && s.wakes[id].goalId.Some? ==>
          && s.wakes[id].goalId.value in s.goals
          && (s.wakes[id].status.Pending? ==> s.goals[s.wakes[id].goalId.value].status.Active?))
  }

  lemma {:induction false} PutGoalsKeeps(goals: map<Id, Goal>, changed: seq<Goal>)
    ensures forall g :: g in goals ==> g in PutGoals(goals, changed)
    ensures (forall g :: g in goals ==> goals[g].goalId == g) ==>
              forall g :: g in PutGoals(goals, changed) ==> PutGoals(goals, changed)[g].goalId == g
  {
    if changed != [] {
      PutGoalsKeeps(goals, changed[..|changed| - 1]);
    }
  }

  lemma {:induction false} PutWakesMisses(wakes: map<Id, Wake>, changed: seq<Wake>, id: Id)
    requires forall i :: 0 <= i < |changed| ==> changed[i].wakeId != id
    ensures Lookup(PutWakes(wakes, changed), id) == Lookup(wakes, id)
  {
    if changed != [] {
      PutWakesMisses(wakes, changed[..|changed| - 1], id);
    }
  }

  lemma {:induction false} PutWakesHits(wakes: map<Id, Wake>, changed: seq<Wake>, i: nat)
    requires i < |changed| && forall j :: i < j < |changed| ==> changed[i].wakeId != changed[j].wakeId
    ensures Lookup(PutWakes(wakes, changed), changed[i].wakeId) == Some(changed[i])
  {
    if i < |changed| - 1 {
      PutWakesHits(wakes, changed[..|changed| - 1], i);
    }
  }

  /** The written wakes stand as written, all others as before. */
  lemma PutWakesAt(wakes: map<Id, Wake>, changed: seq<Wake>)
    requires forall i, j :: 0 <= i < j < |changed| ==> changed[i].wakeId != changed[j].wakeId
    ensures forall w :: w in changed ==> w.wakeId in PutWakes(wakes, changed) && PutWakes(wakes, changed)[w.wakeId] == w
    ensures forall id :: (forall w :: w in changed ==> w.wakeId != id) ==>
              Lookup(PutWakes(wakes, changed), id) == Lookup(wakes, id)
    ensures forall id :: id in PutWakes(wakes, changed) <==> id in wakes || exists w :: w in changed && w.wakeId == id
  {
    hide PutWakes;
    var put := PutWakes(wakes, changed);
    forall w | w in changed ensures w.wakeId in put && put[w.wakeId] == w {
      var i :| 0 <= i < |changed| && changed[i] == w;
      PutWakesHits(wakes, changed, i);
    }
    forall id | forall w :: w in changed ==> w.wakeId != id ensures Lookup(put, id) == Lookup(wakes, id) {
      PutWakesMisses(wakes, changed, id);
    }
    forall id ensures id in put <==> id in wakes || exists w :: w in changed && w.wakeId == id {
      if w :| w in changed && w.wakeId == id {
        assert put[id] == w;
      } else {
        assert Lookup(put, id) == Lookup(wakes, id);
      }
    }
  }

  ghost predicate Names(changed: seq<Goal>, id: Id) {
    exists g :: g in changed && g.goalId == id
  }

  /** The goal an identity has, if it has one. */
  function GoalAt(goals: map<Id, Goal>, id: Id): Option<Goal> {
    if id in goals then Some(goals[id]) else None
  }

  /** The written goals stand as written, all others as before. */
  lemma {:induction false} PutGoalsAt(goals: map<Id, Goal>, changed: seq<Goal>)
    requires forall i, j :: 0 <= i < j < |changed| ==> changed[i].goalId != changed[j].goalId
    ensures forall g :: g in changed ==> GoalAt(PutGoals(goals, changed), g.goalId) == Some(g)
    ensures forall id :: !Names(changed, id) ==> GoalAt(PutGoals(goals, changed), id) == GoalAt(goals, id)
  {
    if changed != [] {
      var n := |changed| - 1;
      var front, last := changed[..n], changed[n];
      PutGoalsAt(goals, front);
      assert changed == front + [last];
      forall g | g in front ensures g.goalId != last.goalId {
        var i :| 0 <= i < n && front[i] == g;
      }
      forall id | !Names(changed, id) ensures !Names(front, id) && last.goalId != id {}
    }
  }

  /** What a change does to a wake that is written or kept: a pending plan of a goal that is not active any
      more is cancelled, any other stands. */
  ghost predicate Standing(goals: map<Id, Goal>, was: Wake, now: Wake) {
    if was.status == Pending && was.goalId.Some? && was.goalId.value in goals && goals[was.goalId.value].status != Active then
      && now.status == Cancelled
      && now.wakeId == was.wakeId && now.dueAt == was.dueAt && now.message == was.message && now.goalId == was.goalId
    else now == was
  }

  ghost predicate Writes(changed: seq<Wake>, id: Id) {
    exists w :: w in changed && w.wakeId == id
  }

  /** What one change does, goal by goal and wake by wake. */
  ghost predicate TakesEffect(s: Snapshot, c: Change, after: Snapshot) {
    && (forall g :: g in c.goals ==> GoalAt(after.goals, g.goalId) == Some(g))
    && (forall id :: !Names(c.goals, id) ==> GoalAt(after.goals, id) == GoalAt(s.goals, id))
    && (forall id :: id in after.wakes <==> id in s.wakes || Writes(c.wakes, id))
    && (forall w :: w in c.wakes ==> w.wakeId in after.wakes && Standing(after.goals, w, after.wakes[w.wakeId]))
    && (forall id :: id in s.wakes && !Writes(c.wakes, id) ==> Standing(after.goals, s.wakes[id], after.wakes[id]))
  }

  lemma ProjectedTakesEffect(s: Snapshot, c: Change)
    requires WellFormed(c)
    ensures TakesEffect(s, c, Projected(s, c))
  {
    hide PutGoals, PutWakes;
    PutGoalsAt(s.goals, c.goals);
    PutWakesAt(s.wakes, c.wakes);
    forall id | id in s.wakes && !Writes(c.wakes, id) ensures Lookup(PutWakes(s.wakes, c.wakes), id) == Some(s.wakes[id]) {
      assert forall w :: w in c.wakes ==> w.wakeId != id;
    }
    forall id ensures id in PutWakes(s.wakes, c.wakes) <==> id in s.wakes || Writes(c.wakes, id) {}
  }

  /** A wake of the projection before stopped goals are looked at: under its identity, with its goal. */
  lemma WakeSound(s: Snapshot, c: Change, id: Id)
    requires Coherent(s) && WellFormed(c) && Accepts(s, c) && id in PutWakes(s.wakes, c.wakes)
    ensures var w := PutWakes(s.wakes, c.wakes)[id];
            w.wakeId == id && (w.goalId.Some? ==> w.goalId.value in PutGoals(s.goals, c.goals))
  {
    hide PutGoals, PutWakes, TransitionError;
    PutGoalsKeeps(s.goals, c.goals);
    PutWakesAt(s.wakes, c.wakes);
    if w :| w in c.wakes && w.wakeId == id {
      assert WakeError(PutGoals(s.goals, c.goals), Lookup(s.wakes, id), w).None?;
    } else {
      assert Lookup(PutWakes(s.wakes, c.wakes), id) == Lookup(s.wakes, id);
    }
  }

  /** Accepted changes keep a coherent snapshot coherent. */
  lemma ProjectedCoherent(s: Snapshot, c: Change)
    requires Coherent(s) && WellFormed(c) && Accepts(s, c)
    ensures Coherent(Projected(s, c))
  {
    hide PutGoals, PutWakes, Accepts, WellFormed;
    PutGoalsKeeps(s.goals, c.goals);
    forall id | id in PutWakes(s.wakes, c.wakes)
      ensures var w := PutWakes(s.wakes, c.wakes)[id];
              w.wakeId == id && (w.goalId.Some? ==> w.goalId.value in PutGoals(s.goals, c.goals))
    {
      WakeSound(s, c, id);
    }
  }

  /** What may happen to one wake between two snapshots. */
  ghost predicate Evolves(before: Wake, after: Wake) {
    && after.(status := before.status, detail := before.detail) == before
    && (before.status.Settled() ==> after == before)
    && (before.status.Running? ==> !after.status.Pending? && !after.status.Cancelled?)
  }

  /** One change moves a wake along the transition graph or leaves it, and fixes the rest of it. */
  lemma ProjectedEvolves(s: Snapshot, c: Change, id: Id)
    requires WellFormed(c) && Accepts(s, c) && id in s.wakes
    ensures id in Projected(s, c).wakes && Evolves(s.wakes[id], Projected(s, c).wakes[id])
    ensures Projected(s, c).wakes[id] == s.wakes[id] || Allowed(s.wakes[id].status, Projected(s, c).wakes[id].status)
            || (s.wakes[id].status.Pending? && Projected(s, c).wakes[id].status.Cancelled?)
  {
    PutWakesAt(s.wakes, c.wakes);
    var wakes := PutWakes(s.wakes, c.wakes);
    if w :| w in c.wakes && w.wakeId == id {
      assert WakeError(PutGoals(s.goals, c.goals), Lookup(s.wakes, id), w).None?;
    } else {
      assert Lookup(wakes, id) == Lookup(s.wakes, id);
    }
  }

  method UpdateGoals(goals: map<Id, Goal>, changed: seq<Goal>) returns (r: map<Id, Goal>)
    ensures r == PutGoals(goals, changed)
  {
    r := goals;
    for i := 0 to |changed|
      invariant r == PutGoals(goals, changed[..i])
    {
      assert changed[..i + 1][..i] == changed[..i];
      r := r[changed[i].goalId := changed[i]];
    }
    assert changed[..|changed|] == changed;
  }

  /** The error of the i-th wake, if all before it are acceptable. */
  ghost function FirstError(goals: map<Id, Goal>, before: map<Id, Wake>, changed: seq<Wake>, i: nat): Option<Error>
    requires i < |changed|
  {
    if forall j :: 0 <= j < i ==> WakeError(goals, Lookup(before, changed[j].wakeId), changed[j]).None?
    then WakeError(goals, Lookup(before, changed[i].wakeId), changed[i]) else None
  }

  /** Validates the wakes of a change one after the other and enters them; the first that is not
      acceptable decides the error. */
  method UpdateWakes(before: map<Id, Wake>, goals: map<Id, Goal>, changed: seq<Wake>) returns (r: Result<map<Id, Wake>, Error>)
    requires forall i, j :: 0 <= i < j < |changed| ==> changed[i].wakeId != changed[j].wakeId
    ensures r.Ok? <==> forall w :: w in changed ==> WakeError(goals, Lookup(before, w.wakeId), w).None?
    ensures r.Ok? ==> r.value == PutWakes(before, changed)
    ensures r.Err? ==> exists i :: 0 <= i < |changed| && FirstError(goals, before, changed, i) == Some(r.error)
  {
    hide WakeError, TransitionError, PutWakes;
    var wakes := before;
    NothingPut(before);
    for i := 0 to |changed|
      invariant wakes == PutWakes(before, changed[..i])
      invariant forall w :: w in changed[..i] ==> WakeError(goals, Lookup(before, w.wakeId), w).None?
    {
      var wake := changed[i];
      PutOne(before, changed, i);
      assert changed[..i + 1] == changed[..i] + [wake];
      var refused := CheckWake(goals, Lookup(wakes, wake.wakeId), wake);
      if refused.Some? {
        assert wake in changed;
        assert forall j :: 0 <= j < i ==> changed[j] in changed[..i];
        assert FirstError(goals, before, changed, i) == Some(refused.value);
        return Err(refused.value);
      }
      wakes := wakes[wake.wakeId := wake];
    }
    assert changed[..|changed|] == changed;
    return Ok(wakes);
  }

  /** A plan starts pending; afterwards it keeps its identity, time, message and goal, is started or
      cancelled once, and after its start ends once. */
  ghost predicate Moves(previous: Option<Wake>, wake: Wake) {
    match previous
    case None => wake.status == Pending
    case Some(p) =>
      && wake.wakeId == p.wakeId && wake.dueAt == p.dueAt && wake.message == p.message && wake.goalId == p.goalId
      && !p.status.Settled() && wake.status != Pending && wake.status != p.status
      && (p.status == Pending <==> wake.status in {Running, Cancelled})
  }

  /** Only active goals are planned for or worked on. */
  ghost predicate Supported(goals: map<Id, Goal>, wake: Wake) {
    wake.goalId.Some? ==>
      wake.goalId.value in goals && (wake.status.Settled() || goals[wake.goalId.value].status == Active)
  }

  /** A wake is acceptable exactly if it moves as wakes may and its goal supports it. The move is looked at
      first, then whether the goal exists, then whether it is active. */
  method CheckWake(goals: map<Id, Goal>, previous: Option<Wake>, wake: Wake) returns (r: Option<Error>)
    ensures r == WakeError(goals, previous, wake)
    ensures r.None? <==> Moves(previous, wake) && Supported(goals, wake)
    ensures !Moves(previous, wake) <==> r == Some(if previous.None? then NotPending else TransitionRefused)
    ensures r == Some(UnknownGoal) <==> Moves(previous, wake) && wake.goalId.Some? && wake.goalId.value !in goals
    ensures r == Some(GoalNotActive) <==>
              Moves(previous, wake) && !Supported(goals, wake) && wake.goalId.value in goals
  {
    var refused := TransitionError(previous, wake);
    if refused.Some? {
      return refused;
    }
    if wake.goalId.Some? {
      if wake.goalId.value !in goals {
        return Some(UnknownGoal);
      }
      if (wake.status.Pending? || wake.status.Running?) && !goals[wake.goalId.value].status.Active? {
        return Some(GoalNotActive);
      }
    }
    return None;
  }

  lemma NothingPut(before: map<Id, Wake>)
    ensures PutWakes(before, []) == before
  {}

  lemma PutOne(before: map<Id, Wake>, changed: seq<Wake>, i: nat)
    requires i < |changed| && forall a, b :: 0 <= a < b < |changed| ==> changed[a].wakeId != changed[b].wakeId
    ensures Lookup(PutWakes(before, changed[..i]), changed[i].wakeId) == Lookup(before, changed[i].wakeId)
    ensures PutWakes(before, changed[..i + 1]) == PutWakes(before, changed[..i])[changed[i].wakeId := changed[i]]
  {
    assert changed[..i + 1][..i] == changed[..i];
    PutWakesAt(before, changed[..i]);
    forall w | w in changed[..i] ensures w.wakeId != changed[i].wakeId {
      var j :| 0 <= j < i && changed[j] == w;
    }
  }

  method CancelWakes(goals: map<Id, Goal>, written: map<Id, Wake>) returns (wakes: map<Id, Wake>)
    ensures wakes == CancelStopped(goals, written)
  {
    wakes := written;
    var todo := written.Keys;
    while todo != {}
      invariant todo <= written.Keys == wakes.Keys
      invariant forall id :: id in written ==> wakes[id] == if id in todo then written[id] else CancelIfStopped(goals, written[id])
      decreases todo
    {
      var id :| id in todo;
      todo := todo - {id};
      if Stopped(goals, wakes[id]) {
        wakes := wakes[id := wakes[id].(status := Cancelled, detail := "goal stopped or paused")];
      }
    }
  }

  /** `_project`: goals first, then the wakes against them, then the wakes of stopped goals. */
  method Project(s: Snapshot, c: Change) returns (r: Result<Snapshot, Error>)
    requires WellFormed(c)
    ensures r.Ok? <==> Accepts(s, c)
    ensures r.Ok? ==> r.value == Projected(s, c).(version := s.version) && TakesEffect(s, c, r.value)
    ensures r.Err? ==> Refuses(s, c, r.error)
  {
    hide WakeError, PutWakes, PutGoals, CancelStopped, TakesEffect;
    ProjectedTakesEffect(s, c);
    VersionApart(s, c, Projected(s, c), s.version);
    var goals := UpdateGoals(s.goals, c.goals);
    var entered := UpdateWakes(s.wakes, goals, c.wakes);
    if entered.Err? {
      return Err(entered.error);
    }
    var wakes := CancelWakes(goals, entered.value);
    return Ok(Snapshot(s.version, goals, wakes));
  }

  lemma VersionApart(s: Snapshot, c: Change, after: Snapshot, version: nat)
    requires TakesEffect(s, c, after)
    ensures TakesEffect(s, c, after.(version := version))
  {}

  ghost predicate Refuses(s: Snapshot, c: Change, e: Error) {
    exists i :: 0 <= i < |c.wakes| && FirstError(PutGoals(s.goals, c.goals), s.wakes, c.wakes, i) == Some(e)
  }

  // ---------------------------------------------------------------- the fold over a log

  function Replay(changes: seq<Change>): Snapshot {
    if changes == [] then EMPTY
    else Projected(Replay(changes[..|changes| - 1]), changes[|changes| - 1])
  }

  /** Each change was accepted against the fold of those before it, under its version, and no
      command occurs twice. */
  ghost predicate GoodLog(changes: seq<Change>) {
    && (forall i :: 0 <= i < |changes| ==>
          WellFormed(changes[i]) && changes[i].expectedVersion == i && Accepts(Replay(changes[..i]), changes[i]))
    && (forall i, j :: 0 <= i < j < |changes| ==> changes[i].commandId != changes[j].commandId)
  }

  lemma {:induction false} ReplayVersion(changes: seq<Change>)
    ensures Replay(changes).version == |changes|
  {
    if changes != [] {
      ReplayVersion(changes[..|changes| - 1]);
    }
  }

  lemma GoodPrefix(changes: seq<Change>, n: nat)
    requires GoodLog(changes) && n <= |changes|
    ensures GoodLog(changes[..n])
  {
    hide Accepts, WellFormed, Replay;
    forall i | 0 <= i < n ensures changes[..n][..i] == changes[..i] {}
  }

  /** Every change of the journal takes effect on the fold of those before it. */
  lemma ChangeTakesEffect(changes: seq<Change>, k: nat)
    requires GoodLog(changes) && k < |changes|
    ensures TakesEffect(Replay(changes[..k]), changes[k], Replay(changes[..k + 1]))
  {
    hide TakesEffect, Projected;
    assert changes[..k + 1][..k] == changes[..k];
    ProjectedTakesEffect(Replay(changes[..k]), changes[k]);
  }

  /** The change stands in the journal, and its place there is where it took effect. */
  ghost predicate Took(changes: seq<Change>, change: Change) {
    exists k :: 0 <= k < |changes| && changes[k] == change && TakesEffect(Replay(changes[..k]), change, Replay(changes[..k + 1]))
  }

  lemma InJournalTook(changes: seq<Change>, change: Change)
    requires GoodLog(changes) && change in changes
    ensures Took(changes, change)
  {
    hide TakesEffect, Replay, GoodLog;
    var k :| 0 <= k < |changes| && changes[k] == change;
    ChangeTakesEffect(changes, k);
  }

  /** The last word on a goal: some change wrote it, and no later one names it. */
  ghost predicate LastWord(changes: seq<Change>, goal: Goal) {
    exists k :: 0 <= k < |changes| && goal in changes[k].goals && forall j :: k < j < |changes| ==> !Names(changes[j].goals, goal.goalId)
  }

  /** The snapshot holds exactly the goals that have the last word. */
  lemma {:induction false} GoalsLastWritten(changes: seq<Change>, id: Id)
    requires GoodLog(changes)
    ensures id in Replay(changes).goals ==> Replay(changes).goals[id].goalId == id && LastWord(changes, Replay(changes).goals[id])
    ensures forall g :: LastWord(changes, g) && g.goalId == id ==> GoalAt(Replay(changes).goals, id) == Some(g)
  {
    if changes != [] {
      hide Projected, Replay, GoodLog;
      var n := |changes| - 1;
      var front, last := changes[..n], changes[n];
      GoodPrefix(changes, n);
      GoalsLastWritten(front, id);
      ChangeTakesEffect(changes, n);
      assert changes[..n + 1] == changes;
      if Names(last.goals, id) {
        var g :| g in last.goals && g.goalId == id;
        assert LastWord(changes, g);
        forall h | LastWord(changes, h) && h.goalId == id ensures h == g {
          var k :| 0 <= k < |changes| && h in changes[k].goals && forall j :: k < j < |changes| ==> !Names(changes[j].goals, h.goalId);
          assert k == n;
        }
      } else {
        forall h: Goal | h.goalId == id ensures LastWord(changes, h) <==> LastWord(front, h) {
          LastWordKept(changes, h);
        }
      }
    }
  }

  lemma LastWordKept(changes: seq<Change>, goal: Goal)
    requires changes != [] && !Names(changes[|changes| - 1].goals, goal.goalId)
    ensures LastWord(changes, goal) <==> LastWord(changes[..|changes| - 1], goal)
  {
    var n := |changes| - 1;
    if LastWord(changes[..n], goal) {
      var k :| 0 <= k < n && goal in changes[..n][k].goals && forall j :: k < j < n ==> !Names(changes[..n][j].goals, goal.goalId);
      forall j | k < j < |changes| ensures !Names(changes[j].goals, goal.goalId) {
        assert j < n ==> changes[..n][j] == changes[j];
      }
      assert goal in changes[k].goals;
    }
    if LastWord(changes, goal) {
      var k :| 0 <= k < |changes| && goal in changes[k].goals && forall j :: k < j < |changes| ==> !Names(changes[j].goals, goal.goalId);
      assert k < n && changes[..n][k] == changes[k];
    }
  }

  /** Every snapshot reachable through the journal is coherent. */
  lemma {:induction false} ReplayCoherent(changes: seq<Change>)
    requires GoodLog(changes)
    ensures Coherent(Replay(changes))
  {
    if changes != [] {
      var n := |changes| - 1;
      GoodPrefix(changes, n);
      ReplayCoherent(changes[..n]);
      ProjectedCoherent(Replay(changes[..n]), changes[n]);
    }
  }

  /** From any version to any later one: a wake stays, keeps its time, message and goal, does not
      return to pending once it is claimed, and does not change at all once it is settled. */
  lemma {:induction false} WakesEvolve(changes: seq<Change>, n: nat, id: Id)
    requires GoodLog(changes) && n <= |changes| && id in Replay(changes[..n]).wakes
    ensures id in Replay(changes).wakes && Evolves(Replay(changes[..n]).wakes[id], Replay(changes).wakes[id])
  {
    hide Accepts, Projected, WellFormed, GoodLog, Evolves, Allowed;
    if n == |changes| {
      assert changes[..n] == changes;
      EvolvesKept(Replay(changes).wakes[id]);
    } else {
      var m := |changes| - 1;
      GoodPrefix(changes, m);
      assert changes[..m][..n] == changes[..n];
      WakesEvolve(changes[..m], n, id);
      LastAccepted(changes);
      ProjectedEvolves(Replay(changes[..m]), changes[m], id);
      EvolvesOn(Replay(changes[..n]).wakes[id], Replay(changes[..m]).wakes[id], Replay(changes).wakes[id]);
    }
  }

  lemma LastAccepted(changes: seq<Change>)
    requires GoodLog(changes) && changes != []
    ensures WellFormed(changes[|changes| - 1]) && Accepts(Replay(changes[..|changes| - 1]), changes[|changes| - 1])
  {
    hide Accepts, WellFormed, Replay;
  }

  lemma EvolvesKept(w: Wake)
    ensures Evolves(w, w)
  {}

  lemma EvolvesOn(a: Wake, b: Wake, c: Wake)
    requires Evolves(a, b) && Evolves(b, c)
    ensures Evolves(a, c)
  {}

  // ---------------------------------------------------------------- the journal

  datatype CommitId = StateCommit(version: nat) | StartedCommit(wakeId: Id) | FinishedCommit(wakeId: Id) | OtherCommit(name: string)

  /** State changes; the two commits that frame the cognition run of a wake; anything else. */
  datatype Fact =
    | StateFact(version: nat, change: Change)
    | RunStarted(wakeId: Id, execution: nat)
    | RunFinished(wakeId: Id, completed: bool)
    | OtherFact(data: string)

  /** `scoped`: the commit belongs to the Bot's state scope. The cursor of a commit is its place in
      the journal, its scope position its place among the scoped commits. */
  datatype Commit = Commit(id: CommitId, scoped: bool, basedOn: nat, fact: Fact)

  datatype Entry = Entry(cursor: nat, commit: Commit)

  function Scoped(log: seq<Commit>): seq<Entry> {
    if log == [] then []
    else Scoped(log[..|log| - 1]) + if log[|log| - 1].scoped then [Entry(|log|, log[|log| - 1])] else []
  }

  function ChangesIn(entries: seq<Entry>): seq<Change> {
    if entries == [] then []
    else
      var last := entries[|entries| - 1].commit.fact;
      ChangesIn(entries[..|entries| - 1]) + if last.StateFact? then [last.change] else []
  }

  function Changes(log: seq<Commit>): seq<Change> {
    ChangesIn(Scoped(log))
  }

  /** Each kind of fact is written under its own kind of identity. */
  predicate Matches(id: CommitId, fact: Fact) {
    match fact
    case StateFact(version, _) => id == StateCommit(version)
    case RunStarted(wakeId, _) => id == StartedCommit(wakeId)
    case RunFinished(wakeId, _) => id == FinishedCommit(wakeId)
    case OtherFact(_) => id.OtherCommit?
  }

  /** The writers of state commits are replicas: the k-th of them is commit k, carries version k and
      is scoped. Commit identities are unique, and other commits may stand anywhere between. */
  ghost predicate Honest(log: seq<Commit>) {
    && (forall i, j :: 0 <= i < j < |log| ==> log[i].id != log[j].id)
    && (forall i :: 0 <= i < |log| ==> Matches(log[i].id, log[i].fact))
    && (forall i :: 0 <= i < |log| && log[i].fact.StateFact? ==>
          && log[i].scoped
          && log[i].fact.version == |Changes(log[..i])| + 1)
    && GoodLog(Changes(log))
  }

  lemma ChangesAppend(entries: seq<Entry>, e: Entry)
    ensures ChangesIn(entries + [e]) == ChangesIn(entries) + if e.commit.fact.StateFact? then [e.commit.fact.change] else []
  {
    assert (entries + [e])[..|entries|] == entries;
  }

  lemma ScopedAppend(log: seq<Commit>, c: Commit)
    ensures Scoped(log + [c]) == Scoped(log) + if c.scoped then [Entry(|log| + 1, c)] else []
    ensures Changes(log + [c]) == Changes(log) + if c.scoped && c.fact.StateFact? then [c.fact.change] else []
  {
    hide ChangesIn, Scoped;
    ScopedOne(log, c);
    ChangesAppend(Scoped(log), Entry(|log| + 1, c));
    assert Scoped(log) + [] == Scoped(log);
    assert Changes(log) + [] == Changes(log);
  }

  lemma ScopedOne(log: seq<Commit>, c: Commit)
    ensures Scoped(log + [c]) == Scoped(log) + if c.scoped then [Entry(|log| + 1, c)] else []
  {
    var longer := log + [c];
    assert longer[..|longer| - 1] == log && longer[|longer| - 1] == c;
  }

  lemma {:induction false} ScopedPrefix(log: seq<Commit>, n: nat)
    requires n <= |log|
    ensures Scoped(log[..n]) <= Scoped(log) && Changes(log[..n]) <= Changes(log)
    decreases |log|
  {
    if n == |log| {
      assert log[..n] == log;
    } else {
      var m := |log| - 1;
      ScopedPrefix(log[..m], n);
      assert log[..m][..n] == log[..n];
      ScopedAppend(log[..m], log[m]);
      assert log == log[..m] + [log[m]];
    }
  }

  lemma {:induction false} ScopedEntry(log: seq<Commit>, k: nat)
    requires k < |Scoped(log)|
    ensures 1 <= Scoped(log)[k].cursor <= |log| && Scoped(log)[k].commit == log[Scoped(log)[k].cursor - 1]
    ensures |Scoped(log[..Scoped(log)[k].cursor - 1])| == k && Scoped(log)[k].commit.scoped
    decreases |log|
  {
    var m := |log| - 1;
    ScopedAppend(log[..m], log[m]);
    assert log == log[..m] + [log[m]];
    if k < |Scoped(log[..m])| {
      ScopedEntry(log[..m], k);
      var at := Scoped(log[..m])[k].cursor;
      assert log[..m][..at - 1] == log[..at - 1];
    }
  }

  /** Cursors grow with the scope position: a prefix of the journal is a prefix of the scope. */
  lemma CursorSplits(log: seq<Commit>, n: nat, k: nat)
    requires n <= |log| && k < |Scoped(log)|
    ensures Scoped(log)[k].cursor <= n <==> k < |Scoped(log[..n])|
  {
    ScopedEntry(log, k);
    var at := Scoped(log)[k].cursor;
    if at <= n {
      assert log[..n][..at] == log[..at];
      ScopedPrefix(log[..n], at);
      assert log[..at] == log[..at - 1] + [log[at - 1]];
      ScopedAppend(log[..at - 1], log[at - 1]);
    } else {
      assert log[..at - 1][..n] == log[..n];
      ScopedPrefix(log[..at - 1], n);
    }
  }

  lemma {:induction false} ChangesPrefix(entries: seq<Entry>, n: nat)
    requires n <= |entries|
    ensures ChangesIn(entries[..n]) <= ChangesIn(entries)
  {
    if n == |entries| {
      assert entries[..n] == entries;
    } else {
      var m := |entries| - 1;
      assert entries[..m][..n] == entries[..n];
      ChangesPrefix(entries[..m], n);
    }
  }

  // ---------------------------------------------------------------- how replicas write and read

  /** What a replica may append: a fresh identity, and for a state commit the next version of the
      state it has read completely, with an accepted change under a fresh command. */
  predicate Admissible(log: seq<Commit>, c: Commit) {
    && (forall i | 0 <= i < |log| :: log[i].id != c.id)
    && Matches(c.id, c.fact)
    && (c.fact.StateFact? ==>
          && c.scoped
          && c.fact.version == |Changes(log)| + 1
          && Fits(Changes(log), c.fact.change))
  }

  predicate Fits(changes: seq<Change>, c: Change) {
    && WellFormed(c) && c.expectedVersion == |changes| && Accepts(Replay(changes), c)
    && forall i | 0 <= i < |changes| :: changes[i].commandId != c.commandId
  }

  lemma GoodAppend(changes: seq<Change>, c: Change)
    requires GoodLog(changes) && Fits(changes, c)
    ensures GoodLog(changes + [c])
  {
    hide Accepts, WellFormed, Replay;
    var longer := changes + [c];
    forall i | 0 <= i < |longer|
      ensures WellFormed(longer[i]) && longer[i].expectedVersion == i && Accepts(Replay(longer[..i]), longer[i])
    {
      assert longer[..i] == if i < |changes| then changes[..i] else changes;
    }
  }

  /** Appending an admissible commit keeps the journal honest. */
  lemma AppendHonest(log: seq<Commit>, c: Commit)
    requires Honest(log) && Admissible(log, c)
    ensures Honest(log + [c])
  {
    hide Accepts, WellFormed, Replay, Scoped, ChangesIn, GoodLog, Changes, Fits;
    ScopedAppend(log, c);
    var longer := log + [c];
    forall i | 0 <= i < |longer| ensures longer[..i] == if i < |log| then log[..i] else log {}
    if c.fact.StateFact? {
      GoodAppend(Changes(log), c.fact.change);
    } else {
      assert Changes(log) + [] == Changes(log);
    }
  }

  function ReadTo(log: seq<Commit>, position: nat): seq<Change>
    requires position <= |Scoped(log)|
  {
    ChangesIn(Scoped(log)[..position])
  }

  function CommandsOf(changes: seq<Change>): map<string, Change> {
    if changes == [] then map[]
    else CommandsOf(changes[..|changes| - 1])[changes[|changes| - 1].commandId := changes[|changes| - 1]]
  }

  lemma {:induction false} CommandsOfKeys(changes: seq<Change>)
    ensures forall id :: id in CommandsOf(changes) <==> exists i :: 0 <= i < |changes| && changes[i].commandId == id
    ensures forall id :: id in CommandsOf(changes) ==> CommandsOf(changes)[id].commandId == id && CommandsOf(changes)[id] in changes
  {
    if changes != [] {
      var m := |changes| - 1;
      CommandsOfKeys(changes[..m]);
      forall id | exists i :: 0 <= i < |changes| && changes[i].commandId == id ensures id in CommandsOf(changes) {
        var i :| 0 <= i < |changes| && changes[i].commandId == id;
        assert i < m ==> changes[..m][i].commandId == id;
      }
    }
  }

  /** What a replica's memory must be for the part of the scope it has read. */
  ghost predicate InStep(log: seq<Commit>, position: nat, snapshot: Snapshot, commands: map<string, Change>) {
    && position <= |Scoped(log)|
    && snapshot == Replay(ReadTo(log, position))
    && commands == CommandsOf(ReadTo(log, position))
  }

  /** Other replicas' commits never invalidate what one replica holds. */
  lemma InStepStable(log: seq<Commit>, later: seq<Commit>, position: nat, snapshot: Snapshot, commands: map<string, Change>)
    requires InStep(log, position, snapshot, commands) && log <= later
    ensures InStep(later, position, snapshot, commands) && ReadTo(later, position) == ReadTo(log, position)
  {
    hide Replay, CommandsOf, Scoped, ChangesIn;
    ScopedPrefix(later, |log|);
    assert later[..|log|] == log;
    assert Scoped(later)[..position] == Scoped(log)[..position];
  }

  lemma ReadNext(log: seq<Commit>, k: nat)
    requires k < |Scoped(log)|
    ensures ReadTo(log, k + 1)
         == ReadTo(log, k) + if Scoped(log)[k].commit.fact.StateFact? then [Scoped(log)[k].commit.fact.change] else []
  {
    hide ChangesIn, Scoped;
    assert Scoped(log)[..k + 1] == Scoped(log)[..k] + [Scoped(log)[k]];
    ChangesAppend(Scoped(log)[..k], Scoped(log)[k]);
  }

  /** The commits before the k-th scoped one hold exactly the changes read up to k. */
  lemma ReadBefore(log: seq<Commit>, k: nat)
    requires k < |Scoped(log)|
    ensures 1 <= Scoped(log)[k].cursor <= |log|
    ensures Changes(log[..Scoped(log)[k].cursor - 1]) == ReadTo(log, k)
  {
    hide ChangesIn, Scoped;
    ScopedEntry(log, k);
    ScopedPrefix(log, Scoped(log)[k].cursor - 1);
    assert Scoped(log[..Scoped(log)[k].cursor - 1]) == Scoped(log)[..k];
  }

  lemma ReadAll(log: seq<Commit>, k: nat)
    requires k <= |Scoped(log)|
    ensures ReadTo(log, k) <= Changes(log) && (k == |Scoped(log)| ==> ReadTo(log, k) == Changes(log))
  {
    hide ChangesIn, Scoped;
    ChangesPrefix(Scoped(log), k);
    assert k == |Scoped(log)| ==> Scoped(log)[..k] == Scoped(log);
  }

  /** The next commit a replica reads carries the next version and an acceptable change. */
  lemma NextAccepted(log: seq<Commit>, k: nat)
    requires Honest(log) && k < |Scoped(log)| && Scoped(log)[k].commit.fact.StateFact?
    ensures var fact := Scoped(log)[k].commit.fact;
            && fact.version == |ReadTo(log, k)| + 1 && fact.change.expectedVersion == |ReadTo(log, k)|
            && WellFormed(fact.change) && Accepts(Replay(ReadTo(log, k)), fact.change)
  {
    hide ChangesIn, Scoped, Changes, Replay, Accepts, WellFormed;
    ReadBefore(log, k);
    ScopedEntry(log, k);
    ReadNext(log, k);
    ReadAll(log, k + 1);
    var n := |ReadTo(log, k)|;
    assert ReadTo(log, k + 1)[n] == Scoped(log)[k].commit.fact.change == Changes(log)[n];
    assert Changes(log)[..n] == ReadTo(log, k);
  }

  lemma {:induction false} ReplayNext(changes: seq<Change>, c: Change)
    ensures Replay(changes + [c]) == Projected(Replay(changes), c)
    ensures CommandsOf(changes + [c]) == CommandsOf(changes)[c.commandId := c]
  {
    hide Projected;
    assert (changes + [c])[..|changes|] == changes;
  }

  /** Reading one more commit keeps a replica in step. */
  lemma StepRead(log: seq<Commit>, position: nat, snapshot: Snapshot, commands: map<string, Change>)
    requires Honest(log) && InStep(log, position, snapshot, commands) && position < |Scoped(log)|
    ensures var fact := Scoped(log)[position].commit.fact;
            if fact.StateFact?
            then fact.version == snapshot.version + 1 && fact.change.expectedVersion == snapshot.version
                 && WellFormed(fact.change) && Accepts(snapshot, fact.change)
                 && InStep(log, position + 1, Projected(snapshot, fact.change), commands[fact.change.commandId := fact.change])
            else InStep(log, position + 1, snapshot, commands)
  {
    hide Scoped, ChangesIn, Accepts, WellFormed, Projected, Honest, Replay, CommandsOf;
    ReadNext(log, position);
    var fact := Scoped(log)[position].commit.fact;
    if fact.StateFact? {
      NextAccepted(log, position);
      ReplayVersion(ReadTo(log, position));
      ReplayNext(ReadTo(log, position), fact.change);
    } else {
      assert ReadTo(log, position) + [] == ReadTo(log, position);
    }
  }

  /** Versions are handed out without a gap: the journal holds a commit for every version up to
      its length and for none beyond. */
  lemma {:induction false} VersionsWithoutGap(log: seq<Commit>, v: nat)
    requires Honest(log)
    ensures (exists i :: 0 <= i < |log| && log[i].id == StateCommit(v)) <==> 1 <= v <= |Changes(log)|
    decreases |log|
  {
    hide Scoped, ChangesIn, GoodLog, Changes;
    if log != [] {
      var m := |log| - 1;
      HonestPrefix(log, m);
      VersionsWithoutGap(log[..m], v);
      assert log == log[..m] + [log[m]];
      ScopedAppend(log[..m], log[m]);
      if i :| 0 <= i < |log| && log[i].id == StateCommit(v) {
        assert i < m ==> log[..m][i].id == StateCommit(v);
      }
      if i :| 0 <= i < m && log[..m][i].id == StateCommit(v) {
        assert log[i].id == StateCommit(v);
      }
      assert log[m].id == StateCommit(v) || log[m].id != StateCommit(v);
    } else {
      NothingWritten();
    }
  }

  lemma NothingWritten()
    ensures Changes([]) == []
  {}

  lemma HonestPrefix(log: seq<Commit>, n: nat)
    requires Honest(log) && n <= |log|
    ensures Honest(log[..n])
  {
    hide Scoped, ChangesIn, GoodLog, Changes;
    ScopedPrefix(log, n);
    assert forall i :: 0 <= i < n ==> log[..n][..i] == log[..i];
    var k := |Changes(log[..n])|;
    assert Changes(log)[..k] == Changes(log[..n]);
    GoodPrefix(Changes(log), k);
  }

  /** A replica's own commit, once it stands in the journal at scope position `at`, moves the
      replica from what it had read completely to its projected state. */
  lemma OwnCommit(log: seq<Commit>, position: nat, snapshot: Snapshot, commands: map<string, Change>, at: nat)
    requires Honest(log) && InStep(log, position, snapshot, commands) && at < |Scoped(log)|
    requires Scoped(log)[at].commit.id == StateCommit(snapshot.version + 1)
    ensures position <= at && Scoped(log)[at].commit.fact.StateFact?
    ensures var c := Scoped(log)[at].commit.fact.change;
            c.expectedVersion == snapshot.version && WellFormed(c) && Accepts(snapshot, c)
            && InStep(log, at + 1, Projected(snapshot, c), commands[c.commandId := c])
  {
    hide Scoped, ChangesIn, Accepts, WellFormed, Projected, Replay, CommandsOf, GoodLog, Changes;
    ScopedEntry(log, at);
    ReplayVersion(ReadTo(log, position));
    NextAccepted(log, at);
    ReadMonotone(log, position, at);
    assert ReadTo(log, at) == ReadTo(log, position);
    assert InStep(log, at, snapshot, commands);
    StepRead(log, at, snapshot, commands);
  }

  lemma ReadMonotone(log: seq<Commit>, position: nat, at: nat)
    requires position <= |Scoped(log)| && at < |Scoped(log)|
    requires |ReadTo(log, at)| == |ReadTo(log, position)| && Scoped(log)[at].commit.fact.StateFact?
    ensures position <= at && ReadTo(log, at) == ReadTo(log, position)
  {
    hide ReadTo;
    if position <= at {
      ReadGrows(log, position, at);
    } else {
      ReadGrows(log, at + 1, position);
      ReadNext(log, at);
    }
  }

  lemma ReadGrows(log: seq<Commit>, a: nat, b: nat)
    requires a <= b <= |Scoped(log)|
    ensures ReadTo(log, a) <= ReadTo(log, b)
  {
    hide Scoped, ChangesIn;
    ChangesPrefix(Scoped(log)[..b], a);
    assert Scoped(log)[..b][..a] == Scoped(log)[..a];
  }

  /** A journal holding no commit for the next version has nothing a complete reader has not read. */
  lemma NothingNew(log: seq<Commit>, position: nat, snapshot: Snapshot, commands: map<string, Change>)
    requires Honest(log) && InStep(log, position, snapshot, commands)
    requires forall i :: 0 <= i < |log| ==> log[i].id != StateCommit(snapshot.version + 1)
    ensures Changes(log) == ReadTo(log, position) && |Changes(log)| == snapshot.version
    ensures snapshot == Replay(Changes(log)) && commands == CommandsOf(Changes(log))
  {
    hide Scoped, ChangesIn, Replay, CommandsOf, Honest, Changes;
    ReplayVersion(ReadTo(log, position));
    ReadAll(log, position);
    VersionsWithoutGap(log, snapshot.version + 1);
  }
}
