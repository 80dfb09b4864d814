/** Preparing a host and giving back what was acquired when that fails (src/aurora_kernel/host.py). */
module Host {
  import opened Cleanups
  import opened Common

  type Id = string

  datatype Kind = Setup | Build | Hook | Task

  datatype Phase = Phase(name: string, kind: Kind, shutdown: bool)

  /** A module and the names of the phases it has a hook for. */
  datatype Module = Module(id: Id, hooks: set<string>)

  datatype Step = Step(phase: Phase, modules: seq<Module>)

  /** What one hook or cleanup does when it is called; a setup hook may return a cleanup. */
  datatype Outcome = Succeeds | ReturnsCleanup | Fails

  const CLOSE := "close"

  // ---------------------------------------------------------------- what a rollback does

  /** The modules to close: latest constructed first, each once, those with a close hook. */
  function ToClose(constructed: seq<Module>, closed: set<Id>): seq<Id> {
    if constructed == [] then []
    else
      var last := constructed[|constructed| - 1];
      var rest := constructed[..|constructed| - 1];
      if last.id in closed then ToClose(rest, closed)
      else (if CLOSE in last.hooks then [last.id] else []) + ToClose(rest, closed + {last.id})
  }

  function Closings(ids: seq<Id>): seq<Event> {
    if ids == [] then [] else Closings(ids[..|ids| - 1]) + [Closed(ids[|ids| - 1])]
  }

  lemma NothingToClose()
    ensures Closings([]) == [] && forall closed :: ToClose([], closed) == []
  {}

  lemma ClosingsNext(ids: seq<Id>, id: Id)
    ensures Closings(ids + [id]) == Closings(ids) + [Closed(id)]
  {
    assert (ids + [id])[..|ids|] == ids;
  }

  lemma ToCloseLast(modules: seq<Module>, n: nat, closed: set<Id>)
    requires n < |modules|
    ensures ToClose(modules[..n + 1], closed)
         == if modules[n].id in closed then ToClose(modules[..n], closed)
            else (if CLOSE in modules[n].hooks then [modules[n].id] else []) + ToClose(modules[..n], closed + {modules[n].id})
  {
    assert modules[..n + 1][..n] == modules[..n];
  }

  /** The events whose call fails, the first of them being call number `from`. */
  function Failing(outcomes: nat -> Outcome, from: nat, events: seq<Event>): seq<Event> {
    if events == [] then []
    else
      var m := |events| - 1;
      Failing(outcomes, from, events[..m]) + if outcomes(from + m).Fails? then [events[m]] else []
  }

  lemma FailingNext(outcomes: nat -> Outcome, from: nat, events: seq<Event>, e: Event)
    ensures Failing(outcomes, from, events + [e])
         == Failing(outcomes, from, events) + if outcomes(from + |events|).Fails? then [e] else []
  {
    assert (events + [e])[..|events|] == events;
  }

  lemma NothingFails(outcomes: nat -> Outcome, from: nat)
    ensures Failing(outcomes, from, []) == []
  {}

  lemma {:induction false} FailingAppend(outcomes: nat -> Outcome, from: nat, a: seq<Event>, b: seq<Event>)
    ensures Failing(outcomes, from, a + b) == Failing(outcomes, from, a) + Failing(outcomes, from + |a|, b)
  {
    if b == [] {
      assert a + b == a;
    } else {
      var m := |b| - 1;
      assert (a + b)[..|a| + m] == a + b[..m];
      FailingAppend(outcomes, from, a, b[..m]);
    }
  }

  /** A module is closed by a rollback exactly once if it was constructed, has a close hook under its
      latest constructed declaration and was not closed before; and no other is. */
  lemma {:induction false} ClosedOnce(constructed: seq<Module>, closed: set<Id>, id: Id)
    requires forall a, b :: a in constructed && b in constructed && a.id == b.id ==> a == b
    ensures id in ToClose(constructed, closed) <==> id !in closed && exists m :: m in constructed && m.id == id && CLOSE in m.hooks
    ensures multiset(ToClose(constructed, closed))[id] <= 1
    ensures forall x :: x in ToClose(constructed, closed) ==> x !in closed
    decreases |constructed|
  {
    if constructed != [] {
      var last, rest := constructed[|constructed| - 1], constructed[..|constructed| - 1];
      assert constructed == rest + [last];
      if last.id in closed {
        ClosedOnce(rest, closed, id);
      } else {
        ClosedOnce(rest, closed + {last.id}, id);
        var tail := ToClose(rest, closed + {last.id});
        assert last.id !in tail;
        assert last in constructed;
        assert id in tail <==> (id in multiset(tail));
      }
    }
  }

  // ---------------------------------------------------------------- prepare

  class Host {
    const plan: seq<Step>
    /** What the n-th call of a hook or cleanup does. */
    const outcomes: nat -> Outcome
    var calls: nat
    var claimed: bool
    var constructed: bool
    ghost var trace: seq<Event>

    constructor (plan: seq<Step>, outcomes: nat -> Outcome)
      ensures this.plan == plan && this.outcomes == outcomes && !claimed && !constructed && trace == [] && calls == 0
    {
      this.plan, this.outcomes, calls, claimed, constructed, trace := plan, outcomes, 0, false, false, [];
    }

    method Invoke() returns (outcome: Outcome)
      modifies this`calls
      ensures calls == old(calls) + 1 && outcome == outcomes(old(calls))
    {
      outcome := outcomes(calls);
      calls := calls + 1;
    }

    /** One call of a rollback after those that left the events `before`; a failure joins the others. */
    method Undo(e: Event, failures: seq<Event>, ghost from: nat, ghost before: seq<Event>) returns (after: seq<Event>)
      requires calls == from + |before| && failures == Failing(outcomes, from, before)
      modifies this`calls, this`trace
      ensures calls == from + |before + [e]| && trace == old(trace) + [e] && after == Failing(outcomes, from, before + [e])
    {
      hide Failing;
      var outcome := Invoke();
      FailingNext(outcomes, from, before, e);
      trace := trace + [e];
      after := failures + if outcome.Fails? then [e] else [];
    }

    /** The close hooks of a rollback. */
    method CloseAll(modules: seq<Module>) returns (failures: seq<Event>)
      modifies this`calls, this`trace
      ensures var events := Closings(ToClose(modules, {}));
              && trace == old(trace) + events && calls == old(calls) + |events|
              && failures == Failing(outcomes, old(calls), events)
    {
      hide Failing, Closings, ToClose;
      failures := [];
      var closed: set<Id> := {};
      ghost var done: seq<Id> := [];
      var n := |modules|;
      NothingFails(outcomes, calls);
      NothingToClose();
      assert trace + [] == trace;
      assert modules[..n] == modules && [] + ToClose(modules, {}) == ToClose(modules, {});
      while n > 0
        invariant n <= |modules| && trace == old(trace) + Closings(done) && calls == old(calls) + |Closings(done)|
        invariant done + ToClose(modules[..n], closed) == ToClose(modules, {})
        invariant failures == Failing(outcomes, old(calls), Closings(done))
      {
        n := n - 1;
        var spec := modules[n];
        ToCloseLast(modules, n, closed);
        if spec.id in closed {
          continue;
        }
        closed := closed + {spec.id};
        if CLOSE in spec.hooks {
          assert done + ([spec.id] + ToClose(modules[..n], closed)) == (done + [spec.id]) + ToClose(modules[..n], closed);
          ClosingsNext(done, spec.id);
          failures := Undo(Closed(spec.id), failures, old(calls), Closings(done));
          done := done + [spec.id];
        } else {
          assert [] + ToClose(modules[..n], closed) == ToClose(modules[..n], closed);
        }
      }
      assert modules[..0] == [] && done + [] == done;
    }

    /** The cleanups of a rollback. */
    method ReleaseAll(cleanups: nat) returns (failures: seq<Event>)
      modifies this`calls, this`trace
      ensures trace == old(trace) + Releases(cleanups, 0) && calls == old(calls) + |Releases(cleanups, 0)|
      ensures failures == Failing(outcomes, old(calls), Releases(cleanups, 0))
    {
      hide Failing;
      failures := [];
      var j: nat := cleanups;
      NothingFails(outcomes, calls);
      while j > 0
        invariant j <= cleanups && trace == old(trace) + Releases(cleanups, j) && calls == old(calls) + |Releases(cleanups, j)|
        invariant failures == Failing(outcomes, old(calls), Releases(cleanups, j))
      {
        j := j - 1;
        failures := Undo(Released(j), failures, old(calls), Releases(cleanups, j + 1));
      }
    }

    /** `_rollback`: nothing that fails stops the rest, and exactly what failed is reported. */
    method Rollback(modules: seq<Module>, cleanups: nat) returns (failures: seq<Event>)
      modifies this`calls, this`trace
      ensures trace == old(trace) + Closings(ToClose(modules, {})) + Releases(cleanups, 0)
      ensures calls == old(calls) + |Closings(ToClose(modules, {})) + Releases(cleanups, 0)|
      ensures failures == Failing(outcomes, old(calls), Closings(ToClose(modules, {})) + Releases(cleanups, 0))
    {
      var first := CloseAll(modules);
      var second := ReleaseAll(cleanups);
      FailingAppend(outcomes, old(calls), Closings(ToClose(modules, {})), Releases(cleanups, 0));
      failures := first + second;
    }

    /** What a successful hook call leaves: a cleanup, if a setup hook returned one; a constructed module. */
    method Account(setup: bool, outcome: Outcome, spec: Module, cleanups: nat, built: seq<Module>)
      returns (acquired: nat, modules: seq<Module>)
      modifies this`trace
      ensures acquired == cleanups + if setup && outcome.ReturnsCleanup? then 1 else 0
      ensures modules == built + if setup then [] else [spec]
      ensures trace == old(trace) + if !setup then [Constructed(spec.id)] else if outcome.ReturnsCleanup? then [Acquired(cleanups)] else []
    {
      acquired, modules := cleanups, built;
      assert trace + [] == trace && built + [] == built;
      if !setup {
        trace := trace + [Constructed(spec.id)];
        modules := built + [spec];
      } else if outcome.ReturnsCleanup? {
        trace := trace + [Acquired(cleanups)];
        acquired := cleanups + 1;
      }
    }

    /** `prepare`. A host is prepared once. It makes the hook calls the plan prescribes, in their order,
        up to the first that fails. Without a failure every acquired cleanup is left to the lifecycle.
        Any failing hook gives everything back: the constructed modules are closed, then every acquired
        cleanup is run, latest first and each exactly once, whatever fails on the way, and exactly what
        failed is reported. */
    method Prepare() returns (r: Result<nat, Error>, ghost n: nat)
      modifies this
      ensures claimed && (r == Err(AlreadyClaimed) <==> old(claimed))
      ensures old(claimed) ==> trace == old(trace) && calls == old(calls) && constructed == old(constructed)
      ensures !old(claimed) ==> constructed == (old(constructed) || r.Ok?)
      ensures !old(claimed) ==>
                && n <= |Prescribed(plan)| && (r.Ok? <==> n == |Prescribed(plan)|)
                && NoneFails(outcomes, old(calls), n)
                && (r.Err? ==> outcomes(old(calls) + n).Fails?)
      ensures r.Ok? ==>
                && r.value == AcquiredBy(outcomes, old(calls), Prescribed(plan)) && calls == old(calls) + n
                && trace == old(trace) + Did(outcomes, old(calls), Prescribed(plan))
      ensures r.Err? && r.error.RolledBack? ==>
                var done := Prescribed(plan)[..n];
                var events := Closings(ToClose(BuiltBy(done), {})) + Releases(AcquiredBy(outcomes, old(calls), done), 0);
                && trace == old(trace) + Did(outcomes, old(calls), done) + events
                && r.error.failures == Failing(outcomes, old(calls) + n + 1, events)
    {
      hide Prescribed, CallsOf, Did, AcquiredBy, BuiltBy, Failing, Closings, ToClose;
      n := 0;
      if claimed {
        return Err(AlreadyClaimed), 0;
      }
      claimed := true;
      var cleanups := 0;
      var built: seq<Module> := [];
      ghost var done: seq<HookCall> := [];
      NothingDone(outcomes, calls);
      NothingPrescribed(plan);
      assert trace + [] == trace;
      for s := 0 to |plan|
        invariant claimed && constructed == old(constructed) && calls == old(calls) + |done|
        invariant done == Prescribed(plan[..s]) && NoneFails(outcomes, old(calls), |done|)
        invariant cleanups == AcquiredBy(outcomes, old(calls), done) && built == BuiltBy(done)
        invariant trace == old(trace) + Did(outcomes, old(calls), done)
      {
        var step := plan[s];
        PrescribedNext(plan, s);
        if !step.phase.kind.Setup? && !step.phase.kind.Build? {
          assert done + [] == done;
          continue;
        }
        ghost var before := done;
        NoCalls(step);
        assert before + [] == before;
        for m := 0 to |step.modules|
          invariant claimed && constructed == old(constructed) && calls == old(calls) + |done|
          invariant done == before + CallsOf(step, m) && NoneFails(outcomes, old(calls), |done|)
          invariant cleanups == AcquiredBy(outcomes, old(calls), done) && built == BuiltBy(done)
          invariant trace == old(trace) + Did(outcomes, old(calls), done)
        {
          var spec := step.modules[m];
          CallsNext(step, m);
          if step.phase.name !in spec.hooks {
            assert done == before + (CallsOf(step, m) + []);
            continue;
          }
          ghost var call := HookCall(step.phase.kind.Setup?, spec);
          assert done + [call] == before + CallsOf(step, m + 1);
          var outcome := Invoke();
          if outcome.Fails? {
            CallStands(plan, s, m, before, done, call);
            var failures := Rollback(built, cleanups);
            assert Prescribed(plan)[..|done|] == done;
            return Err(RolledBack(failures)), |done|;
          }
          DidNext(outcomes, old(calls), done, call);
          cleanups, built := Account(step.phase.kind.Setup?, outcome, spec, cleanups, built);
          done := done + [call];
        }
      }
      assert plan[..|plan|] == plan;
      constructed := true;
      return Ok(cleanups), |done|;
    }
  }

  datatype Error = AlreadyClaimed | RolledBack(failures: seq<Event>)

  // ---------------------------------------------------------------- what the plan prescribes

  datatype HookCall = HookCall(setup: bool, spec: Module)

  /** The hook calls of the first n modules of a construction step: those that have the hook. */
  function CallsOf(step: Step, n: nat): seq<HookCall>
    requires n <= |step.modules|
  {
    if n == 0 then []
    else
      CallsOf(step, n - 1)
      + if step.phase.name in step.modules[n - 1].hooks then [HookCall(step.phase.kind.Setup?, step.modules[n - 1])] else []
  }

  /** The hook calls of a preparation: the setup and build steps of the plan in order. */
  function Prescribed(plan: seq<Step>): seq<HookCall> {
    if plan == [] then []
    else
      var last := plan[|plan| - 1];
      Prescribed(plan[..|plan| - 1]) + if last.phase.kind.Setup? || last.phase.kind.Build? then CallsOf(last, |last.modules|) else []
  }

  /** None of the n calls from a number on fails. */
  ghost predicate NoneFails(outcomes: nat -> Outcome, from: nat, n: nat) {
    forall i :: from <= i < from + n ==> !outcomes(i).Fails?
  }

  /** How many cleanups successful calls acquire: one for each setup hook that returns one. */
  function AcquiredBy(outcomes: nat -> Outcome, from: nat, done: seq<HookCall>): nat {
    if done == [] then 0
    else
      var m := |done| - 1;
      AcquiredBy(outcomes, from, done[..m]) + if done[m].setup && outcomes(from + m).ReturnsCleanup? then 1 else 0
  }

  /** The modules that calls construct: those of the build hooks. */
  function BuiltBy(done: seq<HookCall>): seq<Module> {
    if done == [] then []
    else BuiltBy(done[..|done| - 1]) + if done[|done| - 1].setup then [] else [done[|done| - 1].spec]
  }

  /** What successful calls leave in the trace. */
  function Did(outcomes: nat -> Outcome, from: nat, done: seq<HookCall>): seq<Event> {
    if done == [] then []
    else
      var m := |done| - 1;
      Did(outcomes, from, done[..m])
      + if !done[m].setup then [Constructed(done[m].spec.id)]
        else if outcomes(from + m).ReturnsCleanup? then [Acquired(AcquiredBy(outcomes, from, done[..m]))]
        else []
  }

  lemma NothingDone(outcomes: nat -> Outcome, from: nat)
    ensures AcquiredBy(outcomes, from, []) == 0 && BuiltBy([]) == [] && Did(outcomes, from, []) == []
  {}

  lemma DidNext(outcomes: nat -> Outcome, from: nat, done: seq<HookCall>, call: HookCall)
    ensures var cleanup := outcomes(from + |done|).ReturnsCleanup?;
            && AcquiredBy(outcomes, from, done + [call]) == AcquiredBy(outcomes, from, done) + (if call.setup && cleanup then 1 else 0)
            && BuiltBy(done + [call]) == BuiltBy(done) + (if call.setup then [] else [call.spec])
            && Did(outcomes, from, done + [call])
               == Did(outcomes, from, done) + (if !call.setup then [Constructed(call.spec.id)]
                                               else if cleanup then [Acquired(AcquiredBy(outcomes, from, done))]
                                               else [])
  {
    assert (done + [call])[..|done|] == done;
  }

  lemma NothingPrescribed(plan: seq<Step>)
    ensures Prescribed(plan[..0]) == []
  {}

  lemma PrescribedNext(plan: seq<Step>, s: nat)
    requires s < |plan|
    ensures Prescribed(plan[..s + 1])
         == Prescribed(plan[..s])
            + if plan[s].phase.kind.Setup? || plan[s].phase.kind.Build? then CallsOf(plan[s], |plan[s].modules|) else []
  {
    assert plan[..s + 1][..s] == plan[..s];
  }

  lemma NoCalls(step: Step)
    ensures CallsOf(step, 0) == []
  {}

  lemma CallsNext(step: Step, m: nat)
    requires m < |step.modules|
    ensures CallsOf(step, m + 1)
         == CallsOf(step, m) + if step.phase.name in step.modules[m].hooks then [HookCall(step.phase.kind.Setup?, step.modules[m])] else []
  {}

  lemma {:induction false} CallsGrow(step: Step, m: nat, n: nat)
    requires m <= n <= |step.modules|
    ensures CallsOf(step, m) <= CallsOf(step, n)
  {
    if m < n {
      CallsGrow(step, m, n - 1);
    }
  }

  lemma {:induction false} PrescribedGrow(plan: seq<Step>, s: nat)
    requires s <= |plan|
    ensures Prescribed(plan[..s]) <= Prescribed(plan)
  {
    if s == |plan| {
      assert plan[..s] == plan;
    } else {
      PrescribedGrow(plan[..|plan| - 1], s);
      assert plan[..|plan| - 1][..s] == plan[..s];
    }
  }

  /** The call just made stands in the prescription right after those already done. */
  lemma CallStands(plan: seq<Step>, s: nat, m: nat, before: seq<HookCall>, done: seq<HookCall>, call: HookCall)
    requires s < |plan| && m < |plan[s].modules| && (plan[s].phase.kind.Setup? || plan[s].phase.kind.Build?)
    requires before == Prescribed(plan[..s]) && done + [call] == before + CallsOf(plan[s], m + 1)
    ensures |done| < |Prescribed(plan)| && Prescribed(plan)[..|done|] == done && Prescribed(plan)[|done|] == call
  {
    hide Prescribed, CallsOf;
    PrescribedNext(plan, s);
    CallsGrow(plan[s], m + 1, |plan[s].modules|);
    PrescribedGrow(plan, s + 1);
    var all := Prescribed(plan);
    assert done + [call] <= Prescribed(plan[..s + 1]) <= all;
    assert all[..|done| + 1] == done + [call];
    assert all[..|done| + 1][..|done|] == done;
  }

  // ---------------------------------------------------------------- reading the trace

  /** A trace of nothing but acquisitions and constructions, with their numbers. */
  ghost predicate Acquisitions(trace: seq<Event>, cleanups: nat, modules: seq<Module>) {
    && (forall e :: e in trace ==> e.Acquired? || e.Constructed?)
    && |OnlyAcquired(trace)| == cleanups && (forall i :: 0 <= i < cleanups ==> OnlyAcquired(trace)[i] == Acquired(i))
    && |OnlyConstructed(trace)| == |modules| && (forall i :: 0 <= i < |modules| ==> OnlyConstructed(trace)[i] == Constructed(modules[i].id))
  }

  function OnlyAcquired(trace: seq<Event>): seq<Event> {
    if trace == [] then []
    else OnlyAcquired(trace[..|trace| - 1]) + if trace[|trace| - 1].Acquired? then [trace[|trace| - 1]] else []
  }

  function OnlyConstructed(trace: seq<Event>): seq<Event> {
    if trace == [] then []
    else OnlyConstructed(trace[..|trace| - 1]) + if trace[|trace| - 1].Constructed? then [trace[|trace| - 1]] else []
  }

  /** The trace of successful calls acquires cleanups 0, 1, 2, … and constructs the modules of the build
      hooks in their order, and nothing else. */
  lemma {:induction false} DidAcquires(outcomes: nat -> Outcome, from: nat, done: seq<HookCall>)
    ensures Acquisitions(Did(outcomes, from, done), AcquiredBy(outcomes, from, done), BuiltBy(done))
  {
    hide Did, AcquiredBy, BuiltBy, Acquisitions;
    if done == [] {
      NothingDone(outcomes, from);
      NothingAcquired();
    } else {
      var m := |done| - 1;
      var front, call := done[..m], done[m];
      assert done == front + [call];
      DidAcquires(outcomes, from, front);
      DidNext(outcomes, from, front, call);
      var trace, cleanups, modules := Did(outcomes, from, front), AcquiredBy(outcomes, from, front), BuiltBy(front);
      assert trace + [] == trace && modules + [] == modules;
      if !call.setup {
        ConstructsMore(trace, cleanups, modules, call.spec);
      } else if outcomes(from + m).ReturnsCleanup? {
        AcquiresMore(trace, cleanups, modules);
      }
    }
  }

  lemma NothingAcquired()
    ensures Acquisitions([], 0, [])
  {}

  lemma AcquiresMore(trace: seq<Event>, cleanups: nat, modules: seq<Module>)
    requires Acquisitions(trace, cleanups, modules)
    ensures Acquisitions(trace + [Acquired(cleanups)], cleanups + 1, modules)
  {
    hide OnlyAcquired, OnlyConstructed;
    OneMoreEvent(trace, Acquired(cleanups));
    assert OnlyConstructed(trace) + [] == OnlyConstructed(trace);
  }

  lemma ConstructsMore(trace: seq<Event>, cleanups: nat, modules: seq<Module>, spec: Module)
    requires Acquisitions(trace, cleanups, modules)
    ensures Acquisitions(trace + [Constructed(spec.id)], cleanups, modules + [spec])
  {
    hide OnlyAcquired, OnlyConstructed;
    OneMoreEvent(trace, Constructed(spec.id));
    assert OnlyAcquired(trace) + [] == OnlyAcquired(trace);
  }

  lemma OneMoreEvent(trace: seq<Event>, e: Event)
    ensures OnlyAcquired(trace + [e]) == OnlyAcquired(trace) + (if e.Acquired? then [e] else [])
    ensures OnlyConstructed(trace + [e]) == OnlyConstructed(trace) + (if e.Constructed? then [e] else [])
  {
    assert (trace + [e])[..|trace|] == trace;
  }

  /** Reading the order off: the k-th cleanup run is the k-th from the end, and none is left out. */
  lemma ReleasedInReverse(total: nat, i: nat)
    requires i < total
    ensures |Releases(total, 0)| == total && Releases(total, 0)[total - 1 - i] == Released(i)
    ensures multiset(Releases(total, 0))[Released(i)] == 1
  {
    ReleasesAt(total, 0, i);
    ReleasedOnce(total, 0, i);
  }
}
