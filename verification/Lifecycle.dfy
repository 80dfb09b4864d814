/** The life of an assembled host (src/aurora_kernel/lifecycle.py): background tasks and their
    failures, activation, and one release however many callers close. Every step below is what runs
    between two awaits; a run is any sequence of steps. */
module Lifecycle {
  import opened Cleanups
  import opened Common

  /** A task is running or has ended; a failure is known by the task it comes from. */
  datatype TaskState = Alive | Ended

  datatype Ending = Normally | Failing | Cancelled

  /** How far the release is: asked for, waiting for the first `stock` tasks, at the k-th shutdown
      hook, with j cleanups still to run, done. */
  datatype Stage = Open | Asked | Waiting | Hooks(k: nat) | Cleaning(j: nat) | Done

  /** An entry of the close report. */
  datatype Fault = Background(task: nat) | Release(event: Event)

  datatype Step =
    | Activate
    | HookEnds(succeeds: bool)
    | EndTask(task: nat, ending: Ending)
    | RequestStop
    | Close
    | Release(succeeds: bool)
    | NextFailure

  // ---------------------------------------------------------------- the order of release

  function ShutDowns(k: nat): seq<Event> {
    if k == 0 then [] else ShutDowns(k - 1) + [ShutDown(k - 1)]
  }

  /** What has been released at a stage. */
  function Progress(stage: Stage, hooks: nat, cleanups: nat): seq<Event>
    requires stage.Hooks? ==> stage.k <= hooks
    requires stage.Cleaning? ==> stage.j <= cleanups
  {
    match stage
    case Hooks(k) => ShutDowns(k)
    case Cleaning(j) => ShutDowns(hooks) + Releases(cleanups, j)
    case Done => ShutDowns(hooks) + Releases(cleanups, 0)
    case _ => []
  }

  /** Every hook and every cleanup exactly once: hooks in plan order, cleanups in reverse order of
      acquisition. */
  lemma {:induction false} ShutDownsAt(k: nat, i: nat)
    requires i < k
    ensures |ShutDowns(k)| == k && ShutDowns(k)[i] == ShutDown(i)
  {
    if i < k - 1 {
      ShutDownsAt(k - 1, i);
    } else if k > 1 {
      ShutDownsAt(k - 1, 0);
    }
  }

  lemma ReleasedEachOnce(hooks: nat, cleanups: nat)
    ensures var trace := Progress(Done, hooks, cleanups);
            && |trace| == hooks + cleanups
            && (forall i :: 0 <= i < hooks ==> trace[i] == ShutDown(i))
            && (forall i :: 0 <= i < cleanups ==> trace[hooks + cleanups - 1 - i] == Released(i))
  {
    forall i | 0 <= i < hooks ensures |ShutDowns(hooks)| == hooks && ShutDowns(hooks)[i] == ShutDown(i) {
      ShutDownsAt(hooks, i);
    }
    forall i | 0 <= i < cleanups ensures |Releases(cleanups, 0)| == cleanups && Releases(cleanups, 0)[cleanups - 1 - i] == Released(i) {
      ReleasesAt(cleanups, 0, i);
    }
    if cleanups == 0 {
      assert Releases(0, 0) == [];
    }
  }

  function AllBackground(failures: seq<nat>): seq<Fault> {
    if failures == [] then [] else AllBackground(failures[..|failures| - 1]) + [Background(failures[|failures| - 1])]
  }

  /** The report is the background failures the release took, then those of the release itself. */
  ghost predicate Reports(report: seq<Fault>, taken: seq<nat>, trace: seq<Event>) {
    && |taken| <= |report| && report[..|taken|] == AllBackground(taken)
    && forall i :: |taken| <= i < |report| ==> report[i].Release? && report[i].event in trace
  }

  /** The first start hook from the k-th on that is awaited, or the end of the plan. */
  function NextHook(startup: seq<bool>, k: nat): (n: nat)
    requires k <= |startup|
    ensures k <= n <= |startup| && (forall i :: k <= i < n ==> startup[i]) && (n < |startup| ==> !startup[n])
    decreases |startup| - k
  {
    if k < |startup| && startup[k] then NextHook(startup, k + 1) else k
  }

  /** No activation is in progress that has a background task left to start. */
  predicate Contained(startup: seq<bool>, starting: Option<nat>) {
    starting.None? || forall i | starting.value < i < |startup| :: !startup[i]
  }

  predicate AllEnded(tasks: seq<TaskState>, n: nat) {
    n <= |tasks| && forall i | 0 <= i < n :: tasks[i].Ended?
  }

  class ManagedAssembly {
    /** For each start hook in the order of the plan, whether it is a background task. */
    const startup: seq<bool>
    const hooks: nat
    const cleanups: nat
    var tasks: seq<TaskState>
    var failures: seq<nat>
    var pending: seq<nat>
    var stage: Stage
    var stock: nat
    var report: seq<Fault>
    var activated: bool
    var closed: bool
    var stopping: bool
    /** The start hook an activation in progress is awaiting. */
    var starting: Option<nat>
    /** The callers of close: whether each is the one that receives the report. */
    var callers: seq<bool>
    ghost var trace: seq<Event>
    /** What `next_failure` handed out before and after the release took the rest. */
    ghost var early: seq<nat>
    ghost var taken: seq<nat>
    ghost var late: seq<nat>
    /** When the first caller closed, no activation had a background task left to start. */
    ghost var settled: bool

    ghost predicate Valid()
      reads this
    {
      && (stage.Hooks? ==> stage.k <= hooks) && (stage.Cleaning? ==> stage.j <= cleanups)
      && trace == Progress(stage, hooks, cleanups)
      && (closed <==> !stage.Open?)
      && failures == early + taken + late + pending
      && (stage.Open? || stage.Asked? || stage.Waiting? ==> taken == [] && late == [] && report == [])
      && Reports(report, taken, trace)
      && (starting.Some? ==> activated && starting.value < |startup| && !startup[starting.value])
      && (closed && settled ==> Contained(startup, starting))
      && Owners()
      && Stocked()
    }

    /** The first caller of close is the only one that receives the report. */
    ghost predicate Owners()
      reads this`callers, this`stage
    {
      && (stage.Open? <==> callers == [])
      && forall i :: 0 <= i < |callers| ==> (callers[i] <==> i == 0)
    }

    /** Once the release has taken stock, every task it knew has ended before anything is released; a
        task beyond them was started by an activation that had it left to start when close was called. */
    ghost predicate Stocked()
      reads this
    {
      && (stage.Waiting? || Releasing() ==> stock <= |tasks| && (settled ==> |tasks| == stock))
      && (Releasing() ==> (forall i :: 0 <= i < stock ==> tasks[i].Ended?) && (settled ==> pending == [] && late == []))
    }

    ghost predicate Releasing()
      reads this`stage
    {
      stage.Hooks? || stage.Cleaning? || stage.Done?
    }

    constructor (startup: seq<bool>, hooks: nat, cleanups: nat)
      ensures Valid() && stage.Open? && tasks == [] && failures == pending == early == taken == late == []
      ensures !activated && !stopping && starting.None?
      ensures this.startup == startup && this.hooks == hooks && this.cleanups == cleanups
    {
      this.startup, this.hooks, this.cleanups := startup, hooks, cleanups;
      tasks, failures, pending, stage, stock, report := [], [], [], Open, 0, [];
      activated, closed, stopping, starting, callers := false, false, false, None, [];
      trace, early, taken, late, settled := [], [], [], [], true;
    }

    /** What no step takes back: recorded failures, what was handed out, what was released. */
    twostate predicate Onward()
      reads this
    {
      && old(failures) <= failures && old(trace) <= trace && |tasks| >= |old(tasks)|
      && (old(closed) ==> closed && settled == old(settled) && old(callers) <= callers)
      && (forall i :: 0 <= i < |old(tasks)| && old(tasks)[i].Ended? ==> tasks[i].Ended?)
      && old(early) <= early && old(late) <= late && (old(Releasing()) ==> taken == old(taken) && early == old(early) && old(report) <= report)
    }

    /** `activate` begins once, and not after closing; up to its first awaited hook it is not interrupted. */
    method Begin() returns (refused: bool)
      requires Valid()
      modifies this`activated, this`starting, this`tasks
      ensures Valid() && Onward() && refused == (old(closed) || old(activated))
      ensures refused ==> activated == old(activated) && starting == old(starting) && tasks == old(tasks)
      ensures !refused ==> activated && Went(old(tasks), 0)
    {
      hide Progress, Reports;
      if closed || activated {
        return true;
      }
      activated := true;
      GoOn(0);
      return false;
    }

    /** From the k-th start hook on, the background tasks up to the next awaited hook were started. */
    ghost predicate Went(before: seq<TaskState>, k: nat)
      requires k <= |startup|
      reads this`tasks, this`starting
    {
      var n := NextHook(startup, k);
      && |tasks| == |before| + n - k && tasks[..|before|] == before
      && (forall i :: |before| <= i < |tasks| ==> tasks[i].Alive?)
      && starting == if n < |startup| then Some(n) else None
    }

    /** `_start` between two awaits: background tasks are started and left alone, until a hook has to
        be awaited or activation is complete. */
    method GoOn(k: nat)
      requires k <= |startup|
      modifies this`tasks, this`starting
      ensures Went(old(tasks), k)
    {
      var n := k;
      while n < |startup| && startup[n]
        invariant k <= n <= |startup| && NextHook(startup, n) == NextHook(startup, k)
        invariant |tasks| == |old(tasks)| + n - k && tasks[..|old(tasks)|] == old(tasks)
        invariant forall i :: |old(tasks)| <= i < |tasks| ==> tasks[i].Alive?
      {
        tasks := tasks + [Alive];
        n := n + 1;
      }
      starting := if n < |startup| then Some(n) else None;
    }

    /** The awaited start hook ends: activation goes on, or its failure closes the assembly. */
    method Resume(succeeds: bool)
      requires Valid()
      modifies this`tasks, this`starting, this`closed, this`stage, this`callers, this`settled
      ensures Valid() && Onward()
      ensures old(starting).None? ==> starting.None? && tasks == old(tasks) && stage == old(stage) && callers == old(callers)
      ensures old(starting).Some? && succeeds ==>
                Went(old(tasks), old(starting).value + 1) && stage == old(stage) && callers == old(callers) && settled == old(settled)
      ensures old(starting).Some? && !succeeds ==>
                starting.None? && closed && tasks == old(tasks) && callers == old(callers) + [old(stage).Open?]
    {
      hide Progress, Reports;
      if starting.None? {
        return;
      }
      var k := starting.value;
      if succeeds {
        GoOn(k + 1);
        assert closed && settled ==> NextHook(startup, k + 1) == k + 1;
      } else {
        starting := None;
        CloseCall();
      }
    }

    /** A task ends: its failure is kept, and so is a cancellation nobody asked for. */
    method End(task: nat, ending: Ending)
      requires Valid()
      modifies this`tasks, this`failures, this`pending
      ensures Valid() && Onward()
      ensures var ends := task < |old(tasks)| && old(tasks)[task].Alive?;
              && tasks == (if ends then old(tasks)[task := Ended] else old(tasks))
              && failures == old(failures)
                 + if ends && (ending.Failing? || (ending.Cancelled? && !closed && !stopping)) then [task] else []
      ensures pending == old(pending) + failures[|old(failures)|..]
    {
      hide Progress, Reports;
      if task >= |tasks| || tasks[task].Ended? {
        return;
      }
      tasks := tasks[task := Ended];
      if ending.Failing? || (ending.Cancelled? && !closed && !stopping) {
        failures := failures + [task];
        pending := pending + [task];
      }
    }

    /** The first half of `close` and `abort`: the first caller starts the release and will receive its
        report; all others only wait for it. */
    method CloseCall()
      requires Valid()
      modifies this`closed, this`stage, this`callers, this`settled
      ensures Valid() && closed && callers == old(callers) + [old(stage).Open?]
      ensures stage == if old(stage).Open? then Asked else old(stage)
      ensures settled == if old(stage).Open? then Contained(startup, starting) else old(settled)
    {
      hide Reports;
      callers := callers + [stage.Open?];
      if stage.Open? {
        closed, stage, settled := true, Asked, Contained(startup, starting);
      }
    }

    /** The second half of `close`: once the release is done, the report for its owner, nothing for the
        others. */
    method Report(caller: nat) returns (r: Option<seq<Fault>>)
      requires Valid() && caller < |callers|
      ensures r.Some? <==> stage.Done?
      ensures r.Some? ==> r.value == if caller == 0 then report else []
      ensures r.Some? ==> Reports(report, taken, Progress(Done, hooks, cleanups))
    {
      if !stage.Done? {
        return None;
      }
      return Some(if callers[caller] then report else []);
    }

    /** `_cancel_tasks`, its start and its end: the tasks there are are cancelled, and once they have all
        ended the failures nobody fetched become the first part of the report. */
    method AwaitTasks()
      requires Valid() && (stage.Asked? || stage.Waiting?)
      modifies this`stage, this`stock, this`report, this`pending, this`taken
      ensures Valid() && Onward()
      ensures old(stage).Asked? ==> stage.Waiting? && stock == |tasks| && pending == old(pending)
      ensures old(stage).Waiting? ==> stock == old(stock) && if AllEnded(tasks, stock)
                                      then stage == Hooks(0) && taken == old(pending) && pending == [] && report == AllBackground(taken)
                                      else stage.Waiting? && pending == old(pending)
    {
      hide AllBackground;
      if stage.Asked? {
        stage, stock := Waiting, |tasks|;
      } else if AllEnded(tasks, stock) {
        BackgroundSize(pending);
        report, taken, pending, stage := AllBackground(pending), pending, [], Hooks(0);
        assert report[..|taken|] == report;
      }
    }

    /** One shutdown hook; a failure is reported and does not stop the rest. */
    method RunHook(succeeds: bool)
      requires Valid() && stage.Hooks?
      modifies this`stage, this`report, this`trace
      ensures Valid() && Onward()
      ensures stage == if old(stage).k < hooks then Hooks(old(stage).k + 1) else Cleaning(cleanups)
      ensures trace == old(trace) + if old(stage).k < hooks then [ShutDown(old(stage).k)] else []
      ensures report == old(report) + if old(stage).k < hooks && !succeeds then [Fault.Release(ShutDown(old(stage).k))] else []
    {
      hide Reports, AllBackground;
      var k := stage.k;
      if k == hooks {
        assert ShutDowns(hooks) + Releases(cleanups, cleanups) == ShutDowns(hooks);
        assert trace + [] == trace && report + [] == report;
        stage := Cleaning(cleanups);
      } else {
        Note(ShutDown(k), succeeds);
        stage := Hooks(k + 1);
      }
    }

    /** One cleanup, the latest acquired of those left. */
    method RunCleanup(succeeds: bool)
      requires Valid() && stage.Cleaning?
      modifies this`stage, this`report, this`trace
      ensures Valid() && Onward()
      ensures stage == if old(stage).j > 0 then Cleaning(old(stage).j - 1) else Done
      ensures trace == old(trace) + if old(stage).j > 0 then [Released(old(stage).j - 1)] else []
      ensures report == old(report) + if old(stage).j > 0 && !succeeds then [Fault.Release(Released(old(stage).j - 1))] else []
    {
      hide Reports, AllBackground;
      var j := stage.j;
      if j == 0 {
        assert trace + [] == trace && report + [] == report;
        stage := Done;
      } else {
        assert ShutDowns(hooks) + Releases(cleanups, j - 1) == (ShutDowns(hooks) + Releases(cleanups, j)) + [Released(j - 1)];
        Note(Released(j - 1), succeeds);
        stage := Cleaning(j - 1);
      }
    }

    method Note(e: Event, succeeds: bool)
      requires Reports(report, taken, trace)
      modifies this`trace, this`report
      ensures trace == old(trace) + [e] && Reports(report, taken, trace)
      ensures report == old(report) + if succeeds then [] else [Fault.Release(e)]
    {
      trace := trace + [e];
      if !succeeds {
        assert report[..|taken|] == (report + [Fault.Release(e)])[..|taken|];
        report := report + [Fault.Release(e)];
      } else {
        assert report + [] == report;
      }
    }

    /** The next part of `_release`, after whatever it awaited. */
    method ReleaseOne(succeeds: bool)
      requires Valid()
      modifies this
      ensures Valid() && Onward() && closed == old(closed)
    {
      hide Reports, Progress;
      match stage {
        case Asked => AwaitTasks();
        case Waiting => AwaitTasks();
        case Hooks(_) => RunHook(succeeds);
        case Cleaning(_) => RunCleanup(succeeds);
        case _ =>
      }
    }

    /** One look of `next_failure`: the oldest failure nobody has; nothing once closed; otherwise it
        waits. */
    method Fetch() returns (failure: Option<nat>, over: bool)
      requires Valid()
      modifies this`pending, this`early, this`late
      ensures Valid() && Onward()
      ensures failure.Some? <==> old(pending) != []
      ensures failure.Some? ==> failure.value == old(pending)[0] && pending == old(pending)[1..]
      ensures failure.Some? ==> if Releasing() then late == old(late) + [failure.value] else early == old(early) + [failure.value]
      ensures over == (failure.None? && closed)
    {
      hide Progress, Reports;
      if pending == [] {
        return None, closed;
      }
      failure, over := Some(pending[0]), false;
      if stage.Open? || stage.Asked? || stage.Waiting? {
        early := early + [pending[0]];
      } else {
        late := late + [pending[0]];
      }
      pending := pending[1..];
    }

    method Do(step: Step)
      requires Valid()
      modifies this
      ensures Valid() && Onward()
    {
      hide Progress, Reports;
      match step {
        case Activate =>
          var refused := Begin();
        case HookEnds(succeeds) => Resume(succeeds);
        case EndTask(task, ending) => End(task, ending);
        case RequestStop => stopping := true;
        case Close => CloseCall();
        case Release(succeeds) => ReleaseOne(succeeds);
        case NextFailure =>
          var failure, over := Fetch();
      }
    }

    /** Any run at all. Every recorded failure is handed out at most once, in the order of recording, by
        `next_failure` or in the close report, or is still pending; hooks and cleanups are each run once
        in their order; and if at the first close no activation had a background task left to start, then
        from the first shutdown hook on nothing runs in the background and no failure is left behind. */
    method Perform(steps: seq<Step>)
      requires Valid()
      modifies this
      ensures Valid() && old(failures) <= failures && old(trace) <= trace
      ensures failures == early + taken + late + pending
      ensures stage.Done? ==> trace == Progress(Done, hooks, cleanups) && Reports(report, taken, trace)
      ensures Releasing() && settled ==> AllEnded(tasks, |tasks|) && pending == [] && late == [] && failures == early + taken
    {
      hide Progress, Reports;
      for i := 0 to |steps|
        invariant Valid() && old(failures) <= failures && old(trace) <= trace
      {
        Do(steps[i]);
      }
    }
  }

  // ---------------------------------------------------------------- what an activation can leave behind

  /** The release of an assembly just closed can run to its end while an activation awaits its hook. */
  method ReleaseFully(assembly: ManagedAssembly)
    requires assembly.Valid() && assembly.stage.Asked?
    modifies assembly`tasks, assembly`failures, assembly`pending
    modifies assembly`stage, assembly`stock, assembly`report, assembly`trace, assembly`taken
    ensures assembly.Valid() && assembly.stage.Done? && assembly.pending == [] && |assembly.tasks| == |old(assembly.tasks)|
  {
    hide ManagedAssembly.Valid, ManagedAssembly.Onward;
    for i := 0 to |assembly.tasks|
      invariant assembly.Valid() && assembly.stage.Asked? && i <= |assembly.tasks| == |old(assembly.tasks)|
      invariant forall j :: 0 <= j < i ==> assembly.tasks[j].Ended?
      modifies assembly`tasks, assembly`failures, assembly`pending
    {
      assembly.End(i, Normally);
    }
    assembly.AwaitTasks();
    assembly.AwaitTasks();
    while assembly.stage.Hooks?
      invariant assembly.Valid() && assembly.pending == [] && (assembly.stage.Hooks? || assembly.stage.Cleaning?)
      invariant assembly.stage.Hooks? ==> assembly.stage.k <= assembly.hooks
      modifies assembly`stage, assembly`report, assembly`trace
      decreases if assembly.stage.Hooks? then assembly.hooks - assembly.stage.k + 1 else 0
    {
      assembly.RunHook(true);
    }
    while assembly.stage.Cleaning?
      invariant assembly.Valid() && assembly.pending == [] && (assembly.stage.Cleaning? || assembly.stage.Done?)
      modifies assembly`stage, assembly`report, assembly`trace
      decreases if assembly.stage.Cleaning? then assembly.stage.j + 1 else 0
    {
      assembly.RunCleanup(true);
    }
  }

  /** Exactly then: from every state in which an activation has a background task left to start, a
      first close can be followed by a run in which that task is started after the release is done, and
      its failure stays behind. */
  method ActivationOutlivesClose(assembly: ManagedAssembly)
    requires assembly.Valid() && assembly.stage.Open? && !Contained(assembly.startup, assembly.starting)
    modifies assembly
    ensures assembly.Valid() && assembly.stage.Done? && !assembly.settled
    ensures |assembly.tasks| > |old(assembly.tasks)| && assembly.pending == [|assembly.tasks| - 1]
  {
    hide ManagedAssembly.Valid, ManagedAssembly.Onward;
    assembly.CloseCall();
    ReleaseFully(assembly);
    var known := |assembly.tasks|;
    Awaited(assembly);
    while |assembly.tasks| == known
      invariant assembly.Valid() && assembly.stage.Done? && !assembly.settled && assembly.pending == []
      invariant |assembly.tasks| == known ==>
                  assembly.starting.Some? && assembly.starting.value < |assembly.startup| && !Contained(assembly.startup, assembly.starting)
      invariant |assembly.tasks| != known ==> |assembly.tasks| > known && assembly.tasks[|assembly.tasks| - 1].Alive?
      modifies assembly`tasks, assembly`starting, assembly`closed, assembly`stage, assembly`callers, assembly`settled
      decreases if |assembly.tasks| == known then |assembly.startup| - assembly.starting.value else 0
    {
      assembly.Resume(true);
    }
    assembly.End(|assembly.tasks| - 1, Failing);
  }

  lemma Awaited(assembly: ManagedAssembly)
    requires assembly.Valid()
    ensures assembly.starting.Some? ==> assembly.starting.value < |assembly.startup|
  {}

  lemma {:induction false} BackgroundSize(failures: seq<nat>)
    ensures |AllBackground(failures)| == |failures|
  {
    if failures != [] {
      BackgroundSize(failures[..|failures| - 1]);
    }
  }
}
