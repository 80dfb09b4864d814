/** Dependency ordering of modules (src/aurora_kernel/resolve.py, `_topological`).

    Module names enter the algorithm only through equality and their position in the input, so a
    name is a number. */
module Topological {
  import opened Common

  type Name = nat

  // ---------------------------------------------------------------- what an order is

  predicate Unique(s: seq<Name>) {
    forall i, j :: 0 <= i < j < |s| ==> s[i] != s[j]
  }

  function Elements(s: seq<Name>): set<Name> {
    set x | x in s
  }

  /** The dependencies that count: inside the sorted set, and not on oneself. */
  function Needs(specs: seq<Name>, dependencies: map<Name, set<Name>>, name: Name): set<Name>
    requires name in dependencies
  {
    dependencies[name] * (Elements(specs) - {name})
  }

  ghost predicate Covers(specs: seq<Name>, dependencies: map<Name, set<Name>>) {
    Unique(specs) && forall x :: x in specs ==> x in dependencies
  }

  /** Every element is in the sorted set and comes after everything it needs. */
  ghost predicate Closed(specs: seq<Name>, dependencies: map<Name, set<Name>>, order: seq<Name>)
    requires Covers(specs, dependencies)
  {
    && Unique(order)
    && (forall x :: x in order ==> x in specs)
    && (forall i :: 0 <= i < |order| ==> Needs(specs, dependencies, order[i]) <= Elements(order[..i]))
  }

  /** All of the modules, each after its dependencies. */
  ghost predicate IsOrder(specs: seq<Name>, dependencies: map<Name, set<Name>>, order: seq<Name>)
    requires Covers(specs, dependencies)
  {
    Closed(specs, dependencies, order) && Elements(order) == Elements(specs)
  }

  function Position(specs: seq<Name>, x: Name): nat
    requires x in specs
    ensures Position(specs, x) < |specs| && specs[Position(specs, x)] == x
  {
    if specs[0] == x then 0 else 1 + Position(specs[1..], x)
  }

  /** At the first place where the two differ, `a` has the module that was listed earlier. */
  ghost predicate Precedes(specs: seq<Name>, a: seq<Name>, b: seq<Name>) {
    exists k :: 0 <= k < |a| && k < |b| && a[..k] == b[..k] && a[k] in specs && b[k] in specs
                && Position(specs, a[k]) < Position(specs, b[k])
  }

  /** The order among all possible ones that takes what was listed earlier first. */
  ghost predicate LeastOrder(specs: seq<Name>, dependencies: map<Name, set<Name>>, order: seq<Name>)
    requires Covers(specs, dependencies)
  {
    && IsOrder(specs, dependencies, order)
    && (forall other :: IsOrder(specs, dependencies, other) ==> other == order || Precedes(specs, order, other))
  }

  // ---------------------------------------------------------------- cycles

  /** Each next element is a dependency of the one before. */
  ghost predicate Walk(specs: seq<Name>, dependencies: map<Name, set<Name>>, path: seq<Name>)
    requires Covers(specs, dependencies)
  {
    && (forall i :: 0 <= i < |path| ==> path[i] in specs)
    && (forall i :: 0 <= i < |path| - 1 ==> path[i + 1] in Needs(specs, dependencies, path[i]))
  }

  ghost predicate Repeats(path: seq<Name>) {
    exists i, j :: 0 <= i < j < |path| && path[i] == path[j]
  }

  /** Following dependencies from x can come back to a module already passed. */
  ghost predicate ReachesCycle(specs: seq<Name>, dependencies: map<Name, set<Name>>, x: Name)
    requires Covers(specs, dependencies)
  {
    exists path :: Walk(specs, dependencies, path) && path != [] && path[0] == x && Repeats(path)
  }

  /** There are cycles, and `names` are exactly the modules that reach one. */
  ghost predicate OnCycles(specs: seq<Name>, dependencies: map<Name, set<Name>>, names: set<Name>)
    requires Covers(specs, dependencies)
  {
    names != {} && forall x :: x in names <==> x in specs && ReachesCycle(specs, dependencies, x)
  }

  /** Along a walk that starts inside a closed order, the index in that order falls. */
  lemma {:induction false} WalkFalls(specs: seq<Name>, dependencies: map<Name, set<Name>>, order: seq<Name>, path: seq<Name>, n: nat)
    requires Covers(specs, dependencies) && Closed(specs, dependencies, order) && Walk(specs, dependencies, path)
    requires n < |path| && path[0] in order
    ensures path[n] in order
    ensures forall i :: 0 <= i < n ==> path[i] in order && Position(order, path[i]) > Position(order, path[n])
  {
    if n > 0 {
      WalkFalls(specs, dependencies, order, path, n - 1);
      var before := path[n - 1];
      var at := Position(order, before);
      assert order[at] == before;
      assert path[n - 1 + 1] in Needs(specs, dependencies, before);
      assert path[n] in order[..at];
      var k :| 0 <= k < at && order[k] == path[n];
      PositionUnique(order, k);
    }
  }

  lemma {:induction false} PositionUnique(s: seq<Name>, i: nat)
    requires Unique(s) && i < |s|
    ensures Position(s, s[i]) == i
  {
    var p := Position(s, s[i]);
  }

  lemma ClosedAvoidsCycles(specs: seq<Name>, dependencies: map<Name, set<Name>>, order: seq<Name>, x: Name)
    requires Covers(specs, dependencies) && Closed(specs, dependencies, order) && x in order
    ensures !ReachesCycle(specs, dependencies, x)
  {
    if ReachesCycle(specs, dependencies, x) {
      var path :| Walk(specs, dependencies, path) && path != [] && path[0] == x && Repeats(path);
      var i, j :| 0 <= i < j < |path| && path[i] == path[j];
      WalkFalls(specs, dependencies, order, path, j);
    }
  }

  /** A sequence longer than the set it is drawn from repeats an element. */
  lemma {:induction false} Pigeonhole(path: seq<Name>, s: set<Name>)
    requires |path| > |s| && forall x :: x in path ==> x in s
    ensures Repeats(path)
  {
    var last, front := path[|path| - 1], path[..|path| - 1];
    if last in front {
      var i :| 0 <= i < |front| && front[i] == last;
      assert path[i] == path[|path| - 1];
    } else {
      assert last in path;
      forall x | x in front ensures x in s - {last} {}
      Pigeonhole(front, s - {last});
      var i, j :| 0 <= i < j < |front| && front[i] == front[j];
      assert path[i] == path[j];
    }
  }

  /** In a set where everything needs something of the set, a walk can go on as long as one likes. */
  lemma {:induction false} WalkOn(specs: seq<Name>, dependencies: map<Name, set<Name>>, stuck: set<Name>, x: Name, n: nat)
    returns (path: seq<Name>)
    requires Covers(specs, dependencies) && x in stuck
    requires forall y :: y in stuck ==> y in specs && Needs(specs, dependencies, y) * stuck != {}
    ensures |path| == n + 1 && path[0] == x && Walk(specs, dependencies, path) && forall y :: y in path ==> y in stuck
    decreases n
  {
    if n == 0 {
      path := [x];
    } else {
      var y :| y in Needs(specs, dependencies, x) * stuck;
      var rest := WalkOn(specs, dependencies, stuck, y, n - 1);
      path := [x] + rest;
      forall i | 0 <= i < |path| - 1 ensures path[i + 1] in Needs(specs, dependencies, path[i]) {
        if i > 0 { assert rest[i - 1 + 1] in Needs(specs, dependencies, rest[i - 1]); }
      }
    }
  }

  lemma StuckReachesCycle(specs: seq<Name>, dependencies: map<Name, set<Name>>, stuck: set<Name>, x: Name)
    requires Covers(specs, dependencies) && x in stuck
    requires forall y :: y in stuck ==> y in specs && Needs(specs, dependencies, y) * stuck != {}
    ensures ReachesCycle(specs, dependencies, x)
  {
    var path := WalkOn(specs, dependencies, stuck, x, |stuck|);
    Pigeonhole(path, stuck);
  }

  // ---------------------------------------------------------------- the loop's bookkeeping

  /** What may come next after `done`. */
  ghost predicate IsReady(specs: seq<Name>, dependencies: map<Name, set<Name>>, done: set<Name>, x: Name)
    requires Covers(specs, dependencies)
  {
    x in specs && x !in done && Needs(specs, dependencies, x) <= done
  }

  /** Every valid order either continues `result` or is later than it. */
  ghost predicate Leading(specs: seq<Name>, dependencies: map<Name, set<Name>>, result: seq<Name>)
    requires Covers(specs, dependencies)
  {
    forall order :: IsOrder(specs, dependencies, order) ==> result <= order || Precedes(specs, result, order)
  }

  lemma ClosedStep(specs: seq<Name>, dependencies: map<Name, set<Name>>, result: seq<Name>, x: Name)
    requires Covers(specs, dependencies) && Closed(specs, dependencies, result)
    requires IsReady(specs, dependencies, Elements(result), x)
    ensures Closed(specs, dependencies, result + [x])
  {
    hide Needs;
    var next, n := result + [x], |result|;
    forall i | 0 <= i < |next| ensures Needs(specs, dependencies, next[i]) <= Elements(next[..i]) {
      assert next[..i] == result[..i];
      if i == n { assert result[..n] == result; }
    }
    assert x !in result;
  }

  /** The module at the first place where an order goes beyond a closed prefix of it could come next. */
  lemma NextIsReady(specs: seq<Name>, dependencies: map<Name, set<Name>>, result: seq<Name>, order: seq<Name>)
    requires Covers(specs, dependencies) && IsOrder(specs, dependencies, order)
    requires |result| < |order| && order[..|result|] == result
    ensures IsReady(specs, dependencies, Elements(result), order[|result|])
  {
    hide Needs;
    var n := |result|;
    var y := order[n];
    assert y in order;
    assert Needs(specs, dependencies, y) <= Elements(order[..n]);
    forall i | 0 <= i < n ensures result[i] != y {
      assert order[i] == order[..n][i] == result[i];
    }
  }

  /** One order against the result grown by the least module that is ready. */
  lemma LeadingOne(specs: seq<Name>, dependencies: map<Name, set<Name>>, result: seq<Name>, x: Name, order: seq<Name>)
    requires Covers(specs, dependencies) && IsOrder(specs, dependencies, order)
    requires result <= order || Precedes(specs, result, order)
    requires IsReady(specs, dependencies, Elements(result), x)
    requires forall y :: IsReady(specs, dependencies, Elements(result), y) ==> Position(specs, x) <= Position(specs, y)
    ensures result + [x] <= order || Precedes(specs, result + [x], order)
  {
    hide Needs, Closed, Unique, IsReady, Position, Precedes;
    if result <= order {
      AheadOfNext(specs, dependencies, result, x, order);
    } else {
      StillAhead(specs, result, x, order);
    }
  }

  lemma StillAhead(specs: seq<Name>, result: seq<Name>, x: Name, order: seq<Name>)
    requires Precedes(specs, result, order)
    ensures Precedes(specs, result + [x], order)
  {
    hide Position;
    var k :| 0 <= k < |result| && k < |order| && result[..k] == order[..k] && result[k] in specs && order[k] in specs
             && Position(specs, result[k]) < Position(specs, order[k]);
    assert (result + [x])[..k] == order[..k] && (result + [x])[k] == result[k];
  }

  /** An order that begins with the result goes on with the same module, or with one listed later. */
  lemma AheadOfNext(specs: seq<Name>, dependencies: map<Name, set<Name>>, result: seq<Name>, x: Name, order: seq<Name>)
    requires Covers(specs, dependencies) && IsOrder(specs, dependencies, order) && result <= order
    requires IsReady(specs, dependencies, Elements(result), x)
    requires forall y :: IsReady(specs, dependencies, Elements(result), y) ==> Position(specs, x) <= Position(specs, y)
    ensures result + [x] <= order || Precedes(specs, result + [x], order)
  {
    hide Needs, Closed, Unique;
    var next, n := result + [x], |result|;
    assert order[..n] == result;
    assert x in Elements(order) && x !in Elements(result);
    assert n == |order| ==> order == result;
    NextIsReady(specs, dependencies, result, order);
    var y := order[n];
    if y == x {
      assert next == order[..n + 1];
    } else {
      assert specs[Position(specs, x)] == x && specs[Position(specs, y)] == y;
      assert next[..n] == order[..n] && next[n] == x;
    }
  }

  /** The result grown by the least module that is ready still leads every order. */
  lemma LeadingStep(specs: seq<Name>, dependencies: map<Name, set<Name>>, result: seq<Name>, x: Name)
    requires Covers(specs, dependencies) && Leading(specs, dependencies, result) && Closed(specs, dependencies, result)
    requires IsReady(specs, dependencies, Elements(result), x)
    requires forall y :: IsReady(specs, dependencies, Elements(result), y) ==> Position(specs, x) <= Position(specs, y)
    ensures Leading(specs, dependencies, result + [x]) && Closed(specs, dependencies, result + [x])
  {
    hide Precedes, IsOrder, IsReady, Closed;
    ClosedStep(specs, dependencies, result, x);
    forall order | IsOrder(specs, dependencies, order)
      ensures result + [x] <= order || Precedes(specs, result + [x], order)
    {
      LeadingOne(specs, dependencies, result, x, order);
    }
  }

  /** The positions of everything that may come next, leaving out `held`. */
  ghost function ReadyPositions(specs: seq<Name>, dependencies: map<Name, set<Name>>, done: set<Name>, held: set<Name>): set<nat>
    requires Covers(specs, dependencies)
  {
    set p | 0 <= p < |specs| && specs[p] !in held && IsReady(specs, dependencies, done, specs[p])
  }

  lemma {:induction false} HasLeast(s: set<nat>) returns (m: nat)
    requires s != {}
    ensures m in s && forall x :: x in s ==> m <= x
  {
    m :| m in s;
    if s - {m} != {} {
      var least := HasLeast(s - {m});
      assert forall x :: x in s ==> x == m || x in s - {m};
      if least < m { m := least; }
    } else {
      assert s == {m};
    }
  }

  /** `heappop`: the least position of the queue. */
  method PopLeast(queue: set<nat>) returns (p: nat, rest: set<nat>)
    requires queue != {}
    ensures p in queue && (forall q :: q in queue ==> p <= q) && rest == queue - {p}
  {
    ghost var m := HasLeast(queue);
    p :| p in queue && forall q :: q in queue ==> p <= q;
    rest := queue - {p};
  }

  ghost function OpenNeeds(specs: seq<Name>, dependencies: map<Name, set<Name>>, done: set<Name>, x: Name): set<Name>
    requires x in dependencies
  {
    Needs(specs, dependencies, x) - done
  }

  lemma OpenAfter(specs: seq<Name>, dependencies: map<Name, set<Name>>, done: set<Name>, x: Name, y: Name)
    requires Covers(specs, dependencies) && y in specs && x !in done
    ensures OpenNeeds(specs, dependencies, done + {x}, y) == OpenNeeds(specs, dependencies, done, y) - {x}
    ensures |OpenNeeds(specs, dependencies, done + {x}, y)| ==
            |OpenNeeds(specs, dependencies, done, y)| - if x in Needs(specs, dependencies, y) then 1 else 0
    ensures |OpenNeeds(specs, dependencies, done + {x}, y)| == 0 <==> Needs(specs, dependencies, y) <= done + {x}
  {
    var before, after := OpenNeeds(specs, dependencies, done, y), OpenNeeds(specs, dependencies, done + {x}, y);
    assert after == before - {x};
    assert after == {} <==> Needs(specs, dependencies, y) <= done + {x};
  }

  /** One finished module: each dependent loses a degree, and joins the queue at zero. */
  method Release(specs: seq<Name>, dependencies: map<Name, set<Name>>, ghost done: set<Name>, x: Name,
                 dependents: set<Name>, degree: map<Name, nat>, queue: set<nat>)
    returns (degree': map<Name, nat>, queue': set<nat>)
    requires Covers(specs, dependencies) && IsReady(specs, dependencies, done, x)
    requires forall y :: y in done ==> y in specs && Needs(specs, dependencies, y) <= done
    requires forall y :: y in dependents <==> y in specs && x in Needs(specs, dependencies, y)
    requires degree.Keys == Elements(specs)
    requires forall y :: y in specs ==> degree[y] == |OpenNeeds(specs, dependencies, done, y)|
    requires queue == ReadyPositions(specs, dependencies, done, {x})
    ensures degree'.Keys == Elements(specs)
    ensures forall y :: y in specs ==> degree'[y] == |OpenNeeds(specs, dependencies, done + {x}, y)|
    ensures queue' == ReadyPositions(specs, dependencies, done + {x}, {})
  {
    hide Needs, OpenNeeds, ReadyPositions, Unique;
    degree', queue' := degree, queue;
    var todo := dependents;
    ReleaseStart(specs, dependencies, done, x, dependents);
    while todo != {}
      invariant todo <= dependents && degree'.Keys == Elements(specs)
      invariant forall y :: y in specs && y in todo ==> degree'[y] == |OpenNeeds(specs, dependencies, done, y)|
      invariant forall y :: y in specs && y !in todo ==> degree'[y] == |OpenNeeds(specs, dependencies, done + {x}, y)|
      invariant queue' == ReadyPositions(specs, dependencies, done + {x}, todo)
      decreases todo
    {
      var y :| y in todo;
      OpenAfter(specs, dependencies, done, x, y);
      NotItsOwn(specs, dependencies, x, y);
      Unhold(specs, dependencies, done + {x}, todo, y);
      todo := todo - {y};
      degree' := degree'[y := degree'[y] - 1];
      if degree'[y] == 0 {
        queue' := queue' + {Position(specs, y)};
      }
    }
  }

  lemma ReleaseStart(specs: seq<Name>, dependencies: map<Name, set<Name>>, done: set<Name>, x: Name, dependents: set<Name>)
    requires Covers(specs, dependencies) && IsReady(specs, dependencies, done, x)
    requires forall y :: y in done ==> y in specs && Needs(specs, dependencies, y) <= done
    requires forall y :: y in dependents <==> y in specs && x in Needs(specs, dependencies, y)
    ensures forall y :: y in specs && y !in dependents ==>
              OpenNeeds(specs, dependencies, done + {x}, y) == OpenNeeds(specs, dependencies, done, y)
    ensures ReadyPositions(specs, dependencies, done + {x}, dependents) == ReadyPositions(specs, dependencies, done, {x})
    ensures forall y :: y in dependents ==> y !in done
  {
    forall y | y in specs && y !in dependents
      ensures OpenNeeds(specs, dependencies, done + {x}, y) == OpenNeeds(specs, dependencies, done, y)
    {
      OpenAfter(specs, dependencies, done, x, y);
    }
  }

  lemma NotItsOwn(specs: seq<Name>, dependencies: map<Name, set<Name>>, x: Name, y: Name)
    requires y in dependencies && x in Needs(specs, dependencies, y)
    ensures x != y
  {}

  lemma Unhold(specs: seq<Name>, dependencies: map<Name, set<Name>>, done: set<Name>, held: set<Name>, y: Name)
    requires Covers(specs, dependencies) && y in held && y in specs
    ensures ReadyPositions(specs, dependencies, done, held - {y}) ==
            ReadyPositions(specs, dependencies, done, held) +
            if IsReady(specs, dependencies, done, y) then {Position(specs, y)} else {}
  {
    PositionUnique(specs, Position(specs, y));
    forall p | 0 <= p < |specs| && specs[p] == y ensures p == Position(specs, y) {
      PositionUnique(specs, p);
    }
  }

  // ---------------------------------------------------------------- the sort

  method Dependents(specs: seq<Name>, resolved: map<Name, set<Name>>) returns (dependents: map<Name, set<Name>>)
    requires Unique(specs) && resolved.Keys == Elements(specs)
    requires forall x :: x in resolved ==> resolved[x] <= Elements(specs)
    ensures dependents.Keys == Elements(specs)
    ensures forall x, y :: x in specs ==> (y in dependents[x] <==> y in specs && x in resolved[y])
  {
    hide Lists;
    dependents := map x | x in Elements(specs) :: {};
    ListsNothing(specs, resolved, dependents);
    for i := 0 to |specs|
      invariant Lists(specs, resolved, i, dependents)
    {
      var name, before := specs[i], dependents;
      ListsKeys(specs, resolved, i, before);
      dependents := map x | x in Elements(specs) :: if x in resolved[name] then before[x] + {name} else before[x];
      ListsNext(specs, resolved, i, before, dependents);
    }
    ListsAll(specs, resolved, dependents);
  }

  /** Each module's dependents among the first n. */
  ghost predicate Lists(specs: seq<Name>, resolved: map<Name, set<Name>>, n: nat, dependents: map<Name, set<Name>>)
    requires n <= |specs| && resolved.Keys == Elements(specs)
  {
    && dependents.Keys == Elements(specs)
    && forall x, y :: x in specs ==> (y in dependents[x] <==> y in specs[..n] && x in resolved[y])
  }

  lemma ListsNothing(specs: seq<Name>, resolved: map<Name, set<Name>>, dependents: map<Name, set<Name>>)
    requires resolved.Keys == Elements(specs) && dependents == map x | x in Elements(specs) :: {}
    ensures Lists(specs, resolved, 0, dependents)
  {}

  lemma ListsKeys(specs: seq<Name>, resolved: map<Name, set<Name>>, n: nat, dependents: map<Name, set<Name>>)
    requires n <= |specs| && resolved.Keys == Elements(specs) && Lists(specs, resolved, n, dependents)
    ensures dependents.Keys == Elements(specs)
  {}

  lemma ListsNext(specs: seq<Name>, resolved: map<Name, set<Name>>, n: nat, before: map<Name, set<Name>>, after: map<Name, set<Name>>)
    requires n < |specs| && resolved.Keys == Elements(specs) && Lists(specs, resolved, n, before)
    requires after.Keys == Elements(specs)
    requires forall x :: x in specs ==> after[x] == if x in resolved[specs[n]] then before[x] + {specs[n]} else before[x]
    ensures Lists(specs, resolved, n + 1, after)
  {
    assert specs[..n + 1] == specs[..n] + [specs[n]];
    assert forall y :: y in specs[..n + 1] <==> y in specs[..n] || y == specs[n];
  }

  lemma ListsAll(specs: seq<Name>, resolved: map<Name, set<Name>>, dependents: map<Name, set<Name>>)
    requires resolved.Keys == Elements(specs) && Lists(specs, resolved, |specs|, dependents)
    ensures dependents.Keys == Elements(specs)
    ensures forall x, y :: x in specs ==> (y in dependents[x] <==> y in specs && x in resolved[y])
  {
    assert specs[..|specs|] == specs;
  }

  /** Kahn's algorithm with a heap of positions. Of all orders that put every dependency first it
      returns the one that follows the input most closely; it fails exactly when a cycle exists, and
      then names exactly the modules from which a cycle can be reached. */
  method Sort(specs: seq<Name>, dependencies: map<Name, set<Name>>) returns (r: Result<seq<Name>, set<Name>>)
    requires Covers(specs, dependencies)
    ensures r.Ok? ==> IsOrder(specs, dependencies, r.value)
    ensures r.Ok? ==> forall order :: IsOrder(specs, dependencies, order) ==>
                        order == r.value || Precedes(specs, r.value, order)
    ensures r.Err? <==> exists x :: x in specs && ReachesCycle(specs, dependencies, x)
    ensures r.Err? ==> forall x :: x in r.error <==> x in specs && ReachesCycle(specs, dependencies, x)
  {
    hide Needs, OpenNeeds, Leading, Closed, ReadyPositions, ReachesCycle, Precedes, Unique;
    var degree, dependents, queue := Start(specs, dependencies);
    var result: seq<Name> := [];
    while queue != {}
      invariant Closed(specs, dependencies, result) && Leading(specs, dependencies, result)
      invariant degree.Keys == Elements(specs)
      invariant forall y :: y in specs ==> degree[y] == |OpenNeeds(specs, dependencies, Elements(result), y)|
      invariant queue == ReadyPositions(specs, dependencies, Elements(result), {})
      decreases Elements(specs) - Elements(result)
    {
      var p, rest := PopLeast(queue);
      LeastPosition(specs, dependencies, Elements(result), queue, p);
      var name := specs[p];
      LeadingStep(specs, dependencies, result, name);
      ClosedNeeds(specs, dependencies, result);
      assert Elements(result + [name]) == Elements(result) + {name};
      degree, queue := Release(specs, dependencies, Elements(result), name, dependents[name], degree, rest);
      result := result + [name];
    }
    if |result| != |specs| {
      Leftover(specs, dependencies, result);
      return Err(Elements(specs) - Elements(result));
    }
    Complete(specs, dependencies, result);
    return Ok(result);
  }

  method Start(specs: seq<Name>, dependencies: map<Name, set<Name>>)
    returns (degree: map<Name, nat>, dependents: map<Name, set<Name>>, queue: set<nat>)
    requires Covers(specs, dependencies)
    ensures degree.Keys == dependents.Keys == Elements(specs)
    ensures forall x, y :: x in specs ==> (y in dependents[x] <==> y in specs && x in Needs(specs, dependencies, y))
    ensures Closed(specs, dependencies, []) && Leading(specs, dependencies, [])
    ensures forall y :: y in specs ==> degree[y] == |OpenNeeds(specs, dependencies, Elements([]), y)|
    ensures queue == ReadyPositions(specs, dependencies, Elements([]), {})
  {
    hide Closed, Leading, ReadyPositions, OpenNeeds, Unique, Needs;
    var resolved := map x | x in Elements(specs) :: Needs(specs, dependencies, x);
    degree := map x | x in Elements(specs) :: |resolved[x]|;
    NeedsInside(specs, dependencies);
    dependents := Dependents(specs, resolved);
    DependentsNeed(specs, dependencies, resolved, dependents);
    queue := set p | 0 <= p < |specs| && degree[specs[p]] == 0;
    InitiallyReady(specs, dependencies, degree, queue);
  }

  lemma DependentsNeed(specs: seq<Name>, dependencies: map<Name, set<Name>>, resolved: map<Name, set<Name>>, dependents: map<Name, set<Name>>)
    requires Covers(specs, dependencies) && resolved.Keys == dependents.Keys == Elements(specs)
    requires forall x :: x in specs ==> resolved[x] == Needs(specs, dependencies, x)
    requires forall x, y :: x in specs ==> (y in dependents[x] <==> y in specs && x in resolved[y])
    ensures forall x, y :: x in specs ==> (y in dependents[x] <==> y in specs && x in Needs(specs, dependencies, y))
  {
    hide Needs, Unique;
    forall x, y | x in specs ensures y in dependents[x] <==> y in specs && x in Needs(specs, dependencies, y) {
      assert y in dependents[x] <==> y in specs && x in resolved[y];
    }
  }

  lemma NeedsInside(specs: seq<Name>, dependencies: map<Name, set<Name>>)
    requires Covers(specs, dependencies)
    ensures forall x :: x in specs ==> Needs(specs, dependencies, x) <= Elements(specs)
  {}

  lemma Complete(specs: seq<Name>, dependencies: map<Name, set<Name>>, result: seq<Name>)
    requires Covers(specs, dependencies) && Closed(specs, dependencies, result) && Leading(specs, dependencies, result)
    requires |result| == |specs|
    ensures IsOrder(specs, dependencies, result)
    ensures forall x :: x in specs ==> !ReachesCycle(specs, dependencies, x)
    ensures forall order :: IsOrder(specs, dependencies, order) ==> order == result || Precedes(specs, result, order)
  {
    hide Precedes, ReachesCycle;
    SameLength(result, specs);
    forall x | x in specs ensures !ReachesCycle(specs, dependencies, x) {
      assert x in Elements(result);
      ClosedAvoidsCycles(specs, dependencies, result, x);
    }
    forall order | IsOrder(specs, dependencies, order)
      ensures order == result || Precedes(specs, result, order)
    {
      SameLength(specs, order);
    }
  }

  lemma NothingYet(specs: seq<Name>, dependencies: map<Name, set<Name>>)
    requires Covers(specs, dependencies)
    ensures Closed(specs, dependencies, []) && Leading(specs, dependencies, []) && Elements([]) == {}
  {
    hide Needs, IsOrder, Precedes, Covers;
  }

  lemma AllOpen(specs: seq<Name>, dependencies: map<Name, set<Name>>, y: Name)
    requires y in dependencies
    ensures OpenNeeds(specs, dependencies, {}, y) == Needs(specs, dependencies, y)
  {
    hide Needs;
  }

  lemma EmptyNeeds(specs: seq<Name>, dependencies: map<Name, set<Name>>, y: Name)
    requires y in dependencies
    ensures |Needs(specs, dependencies, y)| == 0 <==> Needs(specs, dependencies, y) <= {}
  {
    hide Needs;
    assert Needs(specs, dependencies, y) <= {} ==> Needs(specs, dependencies, y) == {};
  }

  lemma InitiallyReady(specs: seq<Name>, dependencies: map<Name, set<Name>>, degree: map<Name, nat>, queue: set<nat>)
    requires Covers(specs, dependencies) && degree.Keys == Elements(specs)
    requires forall x :: x in specs ==> degree[x] == |Needs(specs, dependencies, x)|
    requires forall p :: p in queue <==> 0 <= p < |specs| && degree[specs[p]] == 0
    ensures Closed(specs, dependencies, []) && Leading(specs, dependencies, [])
    ensures forall y :: y in specs ==> degree[y] == |OpenNeeds(specs, dependencies, Elements([]), y)|
    ensures queue == ReadyPositions(specs, dependencies, Elements([]), {})
  {
    hide Needs, OpenNeeds, Closed, Leading, Unique;
    NothingYet(specs, dependencies);
    forall y | y in specs ensures degree[y] == |OpenNeeds(specs, dependencies, Elements([]), y)| {
      AllOpen(specs, dependencies, y);
    }
    forall p | 0 <= p < |specs| ensures p in queue <==> IsReady(specs, dependencies, Elements([]), specs[p]) {
      EmptyNeeds(specs, dependencies, specs[p]);
    }
  }

  lemma LeastPosition(specs: seq<Name>, dependencies: map<Name, set<Name>>, done: set<Name>, queue: set<nat>, p: nat)
    requires Covers(specs, dependencies) && queue == ReadyPositions(specs, dependencies, done, {})
    requires p in queue && forall q :: q in queue ==> p <= q
    ensures p < |specs| && IsReady(specs, dependencies, done, specs[p])
    ensures forall y :: IsReady(specs, dependencies, done, y) ==> Position(specs, specs[p]) <= Position(specs, y)
    ensures queue - {p} == ReadyPositions(specs, dependencies, done, {specs[p]})
  {
    PositionUnique(specs, p);
    forall q | 0 <= q < |specs| && specs[q] == specs[p] ensures q == p { PositionUnique(specs, q); }
    forall y | IsReady(specs, dependencies, done, y) ensures p <= Position(specs, y) {
      assert specs[Position(specs, y)] == y;
      assert Position(specs, y) in queue;
    }
  }

  lemma ClosedNeeds(specs: seq<Name>, dependencies: map<Name, set<Name>>, order: seq<Name>)
    requires Covers(specs, dependencies) && Closed(specs, dependencies, order)
    ensures forall y :: y in order ==> y in specs && Needs(specs, dependencies, y) <= Elements(order)
  {
    forall y | y in order ensures Needs(specs, dependencies, y) <= Elements(order) {
      var i :| 0 <= i < |order| && order[i] == y;
      assert Elements(order[..i]) <= Elements(order);
    }
  }

  lemma {:induction false} CountElements(s: seq<Name>)
    requires Unique(s)
    ensures |Elements(s)| == |s|
  {
    if s != [] {
      var n := |s| - 1;
      CountElements(s[..n]);
      assert s == s[..n] + [s[n]];
      assert Elements(s) == Elements(s[..n]) + {s[n]};
    }
  }

  /** Distinct sequences over one set have its size; a distinct sequence of full length covers it. */
  lemma SameLength(a: seq<Name>, b: seq<Name>)
    requires Unique(a) && Unique(b)
    ensures Elements(a) == Elements(b) ==> |a| == |b|
    ensures |a| == |b| && Elements(a) <= Elements(b) ==> Elements(a) == Elements(b)
  {
    CountElements(a);
    CountElements(b);
    if |a| == |b| && Elements(a) <= Elements(b) {
      assert |Elements(b) - Elements(a)| == 0;
    }
  }

  lemma SomethingLeft(specs: seq<Name>, result: seq<Name>)
    requires Unique(specs) && Unique(result) && |result| != |specs| && forall x :: x in result ==> x in specs
    ensures Elements(specs) - Elements(result) != {}
  {
    hide Unique;
    if x :| x in specs && x !in result {
      assert x in Elements(specs) && x !in Elements(result);
      assert x in Elements(specs) - Elements(result);
    } else {
      forall y ensures y in Elements(result) <==> y in Elements(specs) {
        assert y in Elements(result) <==> y in result;
        assert y in Elements(specs) <==> y in specs;
      }
      SameLength(result, specs);
    }
  }

  /** When nothing is ready and something is left, what is left is what reaches a cycle. */
  lemma Leftover(specs: seq<Name>, dependencies: map<Name, set<Name>>, result: seq<Name>)
    requires Covers(specs, dependencies) && Closed(specs, dependencies, result) && |result| != |specs|
    requires ReadyPositions(specs, dependencies, Elements(result), {}) == {}
    ensures forall x :: x in specs ==> (x !in result <==> ReachesCycle(specs, dependencies, x))
    ensures exists x :: x in specs && x !in result
  {
    var stuck := Elements(specs) - Elements(result);
    forall y | y in stuck ensures Needs(specs, dependencies, y) * stuck != {} {
      assert specs[Position(specs, y)] == y;
      assert Position(specs, y) !in ReadyPositions(specs, dependencies, Elements(result), {});
      assert !(Needs(specs, dependencies, y) <= Elements(result));
    }
    forall x | x in specs ensures x !in result <==> ReachesCycle(specs, dependencies, x) {
      if x in result {
        ClosedAvoidsCycles(specs, dependencies, result, x);
      } else {
        StuckReachesCycle(specs, dependencies, stuck, x);
      }
    }
    SomethingLeft(specs, result);
    var x :| x in stuck;
  }

  /** An order exists only when no module reaches a cycle. */
  lemma NoOrderAcrossACycle(specs: seq<Name>, dependencies: map<Name, set<Name>>, order: seq<Name>, x: Name)
    requires Covers(specs, dependencies) && IsOrder(specs, dependencies, order) && x in specs
    ensures !ReachesCycle(specs, dependencies, x)
  {
    assert x in Elements(order);
    ClosedAvoidsCycles(specs, dependencies, order, x);
  }

  /** Without dependencies the input order itself is kept. */
  lemma UnconstrainedKeepsInput(specs: seq<Name>, dependencies: map<Name, set<Name>>, order: seq<Name>)
    requires Covers(specs, dependencies) && forall x :: x in specs ==> Needs(specs, dependencies, x) == {}
    requires IsOrder(specs, dependencies, order)
    requires forall other :: IsOrder(specs, dependencies, other) ==> other == order || Precedes(specs, order, other)
    ensures order == specs
  {
    assert IsOrder(specs, dependencies, specs);
    NothingPrecedesTheInput(specs, order);
  }

  lemma NothingPrecedesTheInput(specs: seq<Name>, order: seq<Name>)
    requires Unique(specs) && Unique(order)
    ensures !Precedes(specs, order, specs)
  {
    if Precedes(specs, order, specs) {
      var k :| 0 <= k < |order| && k < |specs| && order[..k] == specs[..k] && order[k] in specs && specs[k] in specs
               && Position(specs, order[k]) < Position(specs, specs[k]);
      assert forall i :: 0 <= i < k ==> order[i] == order[..k][i] == specs[i];
    }
  }
}
