/** Completing evidence and choosing bundles of memories (src/aurora_bot/memory/selection.py). */
module Selection {
  import opened Common

  type Id = string

  /** A commit of the world as memory sees it: its place, the length of its text and its links. */
  datatype Record = Record(id: Id, cursor: nat, text: nat, dependsOn: seq<Id>, supersedes: seq<Id>)

  /** The records at hand and, for each superseded identity, the records that replace it. */
  datatype Web = Web(records: map<Id, Record>, replacements: map<Id, seq<Id>>)

  ghost predicate Keyed(records: map<Id, Record>) {
    forall id :: id in records ==> records[id].id == id
  }

  // ---------------------------------------------------------------- reachability

  /** Where a record leads: to its premises and to its replacements; an absent one leads nowhere. */
  function Next(web: Web, id: Id): seq<Id> {
    if id !in web.records then []
    else web.records[id].dependsOn + (if id in web.replacements then web.replacements[id] else [])
  }

  ghost predicate Path(web: Web, roots: set<Id>, path: seq<Id>) {
    path != [] && path[0] in roots && forall i :: 0 < i < |path| ==> path[i] in Next(web, path[i - 1])
  }

  ghost predicate Reachable(web: Web, roots: set<Id>, id: Id) {
    exists path :: Path(web, roots, path) && path[|path| - 1] == id
  }

  ghost predicate Closed(web: Web, ids: set<Id>) {
    forall id, n :: id in ids && n in Next(web, id) ==> n in ids
  }

  function Successors(web: Web): set<Id> {
    set id, n | id in web.records && n in Next(web, id) :: n
  }

  /** The identities reachable from the roots. */
  ghost function Reach(web: Web, roots: set<Id>): set<Id> {
    set id | id in roots + Successors(web) && Reachable(web, roots, id)
  }

  lemma {:induction false} PathInside(web: Web, roots: set<Id>, path: seq<Id>, ids: set<Id>)
    requires Path(web, roots, path) && roots <= ids && Closed(web, ids)
    ensures path[|path| - 1] in ids
    decreases |path|
  {
    if |path| > 1 {
      var front := path[..|path| - 1];
      PathInside(web, roots, front, ids);
      assert path[|path| - 1] in Next(web, front[|front| - 1]);
    }
  }

  lemma StepReachable(web: Web, roots: set<Id>, id: Id, n: Id)
    requires Reachable(web, roots, id) && n in Next(web, id)
    ensures Reachable(web, roots, n) && n in Successors(web)
  {
    var path :| Path(web, roots, path) && path[|path| - 1] == id;
    assert Path(web, roots, path + [n]);
  }

  lemma RootReachable(web: Web, roots: set<Id>, id: Id)
    requires id in roots
    ensures Reachable(web, roots, id)
  {
    assert Path(web, roots, [id]);
  }

  /** The reach is the least closed set around the roots. */
  lemma ReachLeast(web: Web, roots: set<Id>)
    ensures roots <= Reach(web, roots) && Closed(web, Reach(web, roots))
    ensures forall ids: set<Id> :: roots <= ids && Closed(web, ids) ==> Reach(web, roots) <= ids
  {
    forall id | id in roots ensures id in Reach(web, roots) {
      RootReachable(web, roots, id);
    }
    forall id, n | id in Reach(web, roots) && n in Next(web, id) ensures n in Reach(web, roots) {
      StepReachable(web, roots, id, n);
    }
    forall ids: set<Id>, id | roots <= ids && Closed(web, ids) && id in Reach(web, roots) ensures id in ids {
      var path :| Path(web, roots, path) && path[|path| - 1] == id;
      PathInside(web, roots, path, ids);
    }
  }

  // ---------------------------------------------------------------- the worklist

  ghost predicate InOrder(records: seq<Record>) {
    forall i, j :: 0 <= i < j < |records| ==> records[i].cursor <= records[j].cursor
  }

  function Ids(records: seq<Record>): set<Id> {
    set i | 0 <= i < |records| :: records[i].id
  }

  lemma InsertedOrder(sorted: seq<Record>, r: Record, i: nat)
    requires InOrder(sorted) && i <= |sorted|
    requires i > 0 ==> sorted[i - 1].cursor <= r.cursor
    requires forall j :: i <= j < |sorted| ==> r.cursor <= sorted[j].cursor
    ensures InOrder(sorted[..i] + [r] + sorted[i..])
  {
    var longer := sorted[..i] + [r] + sorted[i..];
    forall a, b | 0 <= a < b < |longer| ensures longer[a].cursor <= longer[b].cursor {
      assert longer[a] == if a < i then sorted[a] else if a == i then r else sorted[a - 1];
      assert longer[b] == if b < i then sorted[b] else if b == i then r else sorted[b - 1];
    }
  }

  lemma InsertedOnce(sorted: seq<Record>, r: Record, i: nat)
    requires i <= |sorted|
    ensures multiset(sorted[..i] + [r] + sorted[i..]) == multiset(sorted) + multiset{r}
  {
    assert sorted == sorted[..i] + sorted[i..];
  }

  lemma OneMore(records: seq<Record>, n: nat)
    requires n < |records|
    ensures multiset(records[..n + 1]) == multiset(records[..n]) + multiset{records[n]}
  {
    assert records[..n + 1] == records[..n] + [records[n]];
  }

  /** Sorting by cursor. */
  method SortByCursor(records: seq<Record>) returns (sorted: seq<Record>)
    ensures InOrder(sorted) && multiset(sorted) == multiset(records)
  {
    sorted := [];
    for n := 0 to |records|
      invariant InOrder(sorted) && multiset(sorted) == multiset(records[..n])
    {
      var r := records[n];
      var i := |sorted|;
      hide InOrder;
      while i > 0 && sorted[i - 1].cursor > r.cursor
        invariant 0 <= i <= |sorted|
        invariant forall j :: i <= j < |sorted| ==> sorted[j].cursor > r.cursor
      {
        i := i - 1;
      }
      InsertedOrder(sorted, r, i);
      InsertedOnce(sorted, r, i);
      OneMore(records, n);
      sorted := sorted[..i] + [r] + sorted[i..];
    }
    assert records[..|records|] == records;
  }

  /** The records of the visited identities, each once. */
  ghost predicate Listed(web: Web, visited: set<Id>, selected: seq<Record>) {
    && (forall r :: r in selected <==> r.id in visited && r.id in web.records && web.records[r.id] == r)
    && (forall r :: multiset(selected)[r] <= 1)
  }

  /** Everything seen or waiting is reachable, and everything a seen one leads to is seen or waiting. */
  ghost predicate Explored(web: Web, roots: set<Id>, visited: set<Id>, pending: seq<Id>) {
    && (forall id :: id in visited || id in pending ==> Reachable(web, roots, id) && id in roots + Successors(web))
    && (forall id :: id in roots ==> id in visited || id in pending)
    && (forall id, n :: id in visited && n in Next(web, id) ==> n in visited || n in pending)
  }

  lemma ExploredFirst(web: Web, identities: seq<Id>)
    ensures Explored(web, Roots(identities), {}, identities)
  {
    hide Reachable;
    forall id | id in identities ensures Reachable(web, Roots(identities), id) {
      RootReachable(web, Roots(identities), id);
    }
  }

  lemma ExploredAgain(web: Web, roots: set<Id>, visited: set<Id>, pending: seq<Id>, identity: Id)
    requires Explored(web, roots, visited, pending + [identity]) && identity in visited
    ensures Explored(web, roots, visited, pending)
  {
    hide Reachable, Next;
    assert forall id :: id in pending + [identity] <==> id in pending || id == identity;
  }

  lemma ExploredNext(web: Web, roots: set<Id>, visited: set<Id>, pending: seq<Id>, identity: Id)
    requires Explored(web, roots, visited, pending + [identity])
    ensures Explored(web, roots, visited + {identity}, pending + Next(web, identity))
    ensures identity in roots + Successors(web)
  {
    hide Reachable, Next;
    assert forall id :: id in pending + [identity] <==> id in pending || id == identity;
    forall n | n in Next(web, identity) ensures Reachable(web, roots, n) && n in Successors(web) {
      StepReachable(web, roots, identity, n);
    }
  }

  lemma ExploredAll(web: Web, roots: set<Id>, visited: set<Id>)
    requires Explored(web, roots, visited, [])
    ensures visited == Reach(web, roots)
  {
    hide Reachable, Next;
    ReachLeast(web, roots);
    assert Closed(web, visited);
  }

  lemma ListedNext(web: Web, visited: set<Id>, selected: seq<Record>, identity: Id)
    requires Keyed(web.records) && Listed(web, visited, selected) && identity !in visited
    ensures Listed(web, visited + {identity}, if identity in web.records then selected + [web.records[identity]] else selected)
  {
    if identity in web.records {
      var r := web.records[identity];
      assert r !in selected;
      assert multiset(selected + [r]) == multiset(selected) + multiset{r};
    }
  }

  lemma ListedSorted(web: Web, visited: set<Id>, a: seq<Record>, b: seq<Record>)
    requires Listed(web, visited, a) && multiset(a) == multiset(b)
    ensures Listed(web, visited, b)
  {
    assert forall r :: r in b <==> r in multiset(b);
    assert forall r :: r in a <==> r in multiset(a);
  }

  function Roots(identities: seq<Id>): set<Id> {
    set i | 0 <= i < |identities| :: identities[i]
  }

  /** `_closure`: terminates on cycles, and returns exactly the reachable records, each once and in the
      order of their cursors, and exactly the reachable identities without a record. */
  method Closure(web: Web, identities: seq<Id>) returns (selected: seq<Record>, missing: set<Id>)
    requires Keyed(web.records)
    ensures Listed(web, Reach(web, Roots(identities)), selected) && InOrder(selected)
    ensures missing == set id | id in Reach(web, Roots(identities)) && id !in web.records
  {
    hide Explored, Listed, Next, Reach, InOrder, Keyed, Successors, Roots;
    ghost var roots := Roots(identities);
    var visited: set<Id> := {};
    missing := {};
    var pending := identities;
    var found: seq<Record> := [];
    ExploredFirst(web, identities);
    NothingListed(web);
    while pending != []
      invariant Explored(web, roots, visited, pending) && Listed(web, visited, found)
      invariant missing == set id | id in visited && id !in web.records
      decreases |(roots + Successors(web)) - visited|, |pending|
    {
      var identity := pending[|pending| - 1];
      assert pending == pending[..|pending| - 1] + [identity];
      pending := pending[..|pending| - 1];
      if identity in visited {
        ExploredAgain(web, roots, visited, pending, identity);
        continue;
      }
      ExploredNext(web, roots, visited, pending, identity);
      ListedNext(web, visited, found, identity);
      ghost var unseen := (roots + Successors(web)) - visited;
      visited := visited + {identity};
      assert (roots + Successors(web)) - visited == unseen - {identity};
      if identity !in web.records {
        missing := missing + {identity};
        NowhereFrom(web, identity);
        assert pending + [] == pending;
        continue;
      }
      found := found + [web.records[identity]];
      pending := pending + Next(web, identity);
    }
    ExploredAll(web, roots, visited);
    selected := SortByCursor(found);
    ListedSorted(web, visited, found, selected);
  }

  lemma NothingListed(web: Web)
    ensures Listed(web, {}, [])
  {}

  lemma NowhereFrom(web: Web, id: Id)
    requires id !in web.records
    ensures Next(web, id) == []
  {}

  // ---------------------------------------------------------------- who replaces whom

  /** The replacements are exactly the superseding records. */
  ghost predicate Replaces(records: map<Id, Record>, done: set<Id>, replacements: map<Id, seq<Id>>) {
    forall prior, newer :: (prior in replacements && newer in replacements[prior])
                           <==> newer in done && newer in records && prior in records[newer].supersedes
  }

  method Replacements(records: map<Id, Record>) returns (replacements: map<Id, seq<Id>>)
    ensures Replaces(records, records.Keys, replacements)
    ensures forall prior :: prior in replacements ==> replacements[prior] != []
  {
    replacements := map[];
    var todo := records.Keys;
    while todo != {}
      invariant todo <= records.Keys && Replaces(records, records.Keys - todo, replacements)
      invariant forall prior :: prior in replacements ==> replacements[prior] != []
      decreases todo
    {
      var id :| id in todo;
      todo := todo - {id};
      ghost var before := replacements;
      var links := records[id].supersedes;
      for k := 0 to |links|
        invariant forall prior :: prior in replacements <==> prior in before || prior in links[..k]
        invariant forall prior :: prior in replacements ==> replacements[prior] != []
        invariant forall prior, n :: (prior in replacements && n in replacements[prior]) <==>
                    (prior in before && n in before[prior]) || (n == id && prior in links[..k])
      {
        var prior := links[k];
        assert links[..k + 1] == links[..k] + [prior];
        replacements := replacements[prior := (if prior in replacements then replacements[prior] else []) + [id]];
      }
      assert links[..|links|] == links;
    }
  }

  // ---------------------------------------------------------------- choosing bundles within a budget

  datatype Bundle = Bundle(root: Id, commits: seq<Record>)

  function Weight(r: Record): nat {
    r.text + |r.id| + 240
  }

  function Size(commits: seq<Record>): nat {
    if commits == [] then 0 else Size(commits[..|commits| - 1]) + Weight(commits[|commits| - 1])
  }

  ghost function Texts(commits: seq<Record>): nat {
    if commits == [] then 0 else commits[0].text + Texts(commits[1..])
  }

  ghost function Marks(commits: seq<Record>): nat {
    if commits == [] then 0 else |commits[0].id| + Marks(commits[1..])
  }

  /** What is counted: all texts, all identities, and 240 characters for each record. */
  lemma {:induction false} SizeCounts(commits: seq<Record>)
    ensures Size(commits) == Texts(commits) + Marks(commits) + 240 * |commits|
  {
    if commits != [] {
      SizeCounts(commits[1..]);
      SizeFirst(commits);
    }
  }

  lemma {:induction false} SizeFirst(commits: seq<Record>)
    requires commits != []
    ensures Size(commits) == Weight(commits[0]) + Size(commits[1..])
  {
    var n := |commits| - 1;
    if n > 0 {
      SizeFirst(commits[..n]);
      assert commits[..n][1..] == commits[1..][..n - 1];
    }
  }

  function TotalSize(bundles: seq<Bundle>): nat {
    if bundles == [] then 0 else TotalSize(bundles[..|bundles| - 1]) + Size(bundles[|bundles| - 1].commits)
  }

  ghost function SetSize(records: map<Id, Record>, ids: set<Id>): nat
    requires ids <= records.Keys
  {
    if ids == {} then 0 else var id :| id in ids; Weight(records[id]) + SetSize(records, ids - {id})
  }

  lemma {:induction false} SetSizeAny(records: map<Id, Record>, ids: set<Id>, x: Id)
    requires ids <= records.Keys && x in ids
    ensures SetSize(records, ids) == Weight(records[x]) + SetSize(records, ids - {x})
  {
    var id :| id in ids && SetSize(records, ids) == Weight(records[id]) + SetSize(records, ids - {id});
    if id != x {
      SetSizeAny(records, ids - {id}, x);
      SetSizeAny(records, ids - {x}, id);
      assert ids - {id} - {x} == ids - {x} - {id};
    }
  }

  /** A listing of identities weighs what the identities weigh, in whatever order. */
  lemma {:induction false} SizeListed(web: Web, ids: set<Id>, commits: seq<Record>)
    requires Keyed(web.records) && ids <= web.records.Keys && Listed(web, ids, commits)
    ensures Size(commits) == SetSize(web.records, ids)
  {
    if commits == [] {
      assert forall id :: id in ids ==> web.records[id] in commits;
    } else {
      var m := |commits| - 1;
      var front, last := commits[..m], commits[m];
      assert commits == front + [last];
      assert multiset(commits) == multiset(front) + multiset{last};
      assert last in commits;
      assert last !in front by {
        assert multiset(commits)[last] <= 1;
      }
      forall r ensures multiset(front)[r] <= 1 {
        assert multiset(commits)[r] <= 1;
      }
      SizeListed(web, ids - {last.id}, front);
      SetSizeAny(web.records, ids, last.id);
    }
  }

  /** The state of the choice: roots taken, identities included, characters left. */
  datatype Choice = Choice(roots: seq<Id>, included: set<Id>, left: int)

  /** What completing one root would add beside the required evidence. */
  ghost function Adds(web: Web, required: set<Id>, root: Id): set<Id> {
    Reach(web, {root}) - required
  }

  ghost predicate Takes(web: Web, required: set<Id>, c: Choice, root: Id) {
    && root !in c.included
    && Reach(web, {root}) <= web.records.Keys
    && SetSize(web.records, Adds(web, required, root)) <= c.left
  }

  /** The best-ranked first: a root is taken unless it is already included, its evidence is incomplete,
      or its completion does not fit what is left. */
  ghost function Greedy(web: Web, required: set<Id>, ranked: seq<Id>, max: int): Choice {
    if ranked == [] then Choice([], required, max)
    else
      var c, root := Greedy(web, required, ranked[..|ranked| - 1], max), ranked[|ranked| - 1];
      if Takes(web, required, c, root)
      then Choice(c.roots + [root], c.included + Adds(web, required, root), c.left - SetSize(web.records, Adds(web, required, root)))
      else c
  }

  // ---------------------------------------------------------------- the same, read from the records alone

  /** A record leads to its premises and to the records that supersede it. */
  ghost predicate Leads(records: map<Id, Record>, id: Id, n: Id) {
    id in records && (n in records[id].dependsOn || (n in records && id in records[n].supersedes))
  }

  ghost predicate Followed(records: map<Id, Record>, ids: set<Id>) {
    forall id, n :: id in ids && Leads(records, id, n) ==> n in ids
  }

  /** The roots with everything they lead to, and nothing else. */
  ghost predicate LeastFollowed(records: map<Id, Record>, roots: set<Id>, ids: set<Id>) {
    && roots <= ids && Followed(records, ids)
    && forall other: set<Id> :: roots <= other && Followed(records, other) ==> ids <= other
  }

  lemma ReachFollowed(web: Web, roots: set<Id>)
    requires Replaces(web.records, web.records.Keys, web.replacements)
    ensures LeastFollowed(web.records, roots, Reach(web, roots))
  {
    hide Reach, Next, Leads;
    ReachLeast(web, roots);
    forall id, n ensures n in Next(web, id) <==> Leads(web.records, id, n) {
      NextLeads(web, id, n);
    }
    forall ids: set<Id> ensures Followed(web.records, ids) <==> Closed(web, ids) {}
  }

  lemma NextLeads(web: Web, id: Id, n: Id)
    requires Replaces(web.records, web.records.Keys, web.replacements)
    ensures n in Next(web, id) <==> Leads(web.records, id, n)
  {}

  /** Beside the required evidence the bundle holds its root and all that it leads to. */
  ghost predicate Gathers(records: map<Id, Record>, required: set<Id>, b: Bundle) {
    exists ids: set<Id> :: LeastFollowed(records, {b.root}, ids) && ids <= records.Keys && Ids(b.commits) == ids - required
  }

  lemma CompletesGathers(web: Web, required: set<Id>, b: Bundle)
    requires Keyed(web.records) && Replaces(web.records, web.records.Keys, web.replacements) && Completes(web, required, b)
    ensures Gathers(web.records, required, b)
  {
    hide Listed, Reach, Replaces, LeastFollowed, Ids;
    ListedIds(web, Adds(web, required, b.root), b.commits);
    ReachFollowed(web, {b.root});
  }

  lemma RequiredFollowed(web: Web, roots: set<Id>, required: seq<Record>, missing: set<Id>)
    requires Keyed(web.records) && Replaces(web.records, web.records.Keys, web.replacements)
    requires Listed(web, Reach(web, roots), required)
    requires missing == set id | id in Reach(web, roots) && id !in web.records
    ensures LeastFollowed(web.records, roots, Ids(required) + missing)
  {
    hide Reach, Replaces, LeastFollowed;
    ReachFollowed(web, roots);
    forall id ensures id in Ids(required) <==> id in Reach(web, roots) && id in web.records {
      if id in Reach(web, roots) && id in web.records {
        assert web.records[id] in required;
        var i :| 0 <= i < |required| && required[i] == web.records[id];
      }
      if id in Ids(required) {
        var i :| 0 <= i < |required| && required[i].id == id;
        assert required[i] in required;
      }
    }
    assert Ids(required) + missing == Reach(web, roots);
  }

  /** Each bundle completes its root: with the required evidence it holds everything the root reaches. */
  ghost predicate Completes(web: Web, required: set<Id>, b: Bundle) {
    && Reach(web, {b.root}) <= web.records.Keys
    && Listed(web, Adds(web, required, b.root), b.commits) && InOrder(b.commits)
  }

  function Without(commits: seq<Record>, ids: set<Id>): (kept: seq<Record>)
    ensures forall r :: r in kept <==> r in commits && r.id !in ids
    ensures InOrder(commits) ==> InOrder(kept)
    ensures forall r :: multiset(kept)[r] <= multiset(commits)[r]
  {
    if commits == [] then []
    else
      var m := |commits| - 1;
      var front := Without(commits[..m], ids);
      LastMembers(commits, ids, front);
      LastInOrder(commits, ids, front);
      LastCounts(commits, ids, front);
      front + if commits[m].id in ids then [] else [commits[m]]
  }

  lemma LastMembers(commits: seq<Record>, ids: set<Id>, front: seq<Record>)
    requires commits != [] && forall r :: r in front <==> r in commits[..|commits| - 1] && r.id !in ids
    ensures var last := commits[|commits| - 1];
            forall r :: r in front + (if last.id in ids then [] else [last]) <==> r in commits && r.id !in ids
  {
    var m := |commits| - 1;
    assert commits == commits[..m] + [commits[m]];
  }

  lemma LastInOrder(commits: seq<Record>, ids: set<Id>, front: seq<Record>)
    requires commits != [] && forall r :: r in front ==> r in commits[..|commits| - 1]
    requires InOrder(commits[..|commits| - 1]) ==> InOrder(front)
    ensures var last := commits[|commits| - 1];
            InOrder(commits) ==> InOrder(front + if last.id in ids then [] else [last])
  {
    if InOrder(commits) {
      var m := |commits| - 1;
      assert InOrder(commits[..m]);
      forall i | 0 <= i < |front| ensures front[i].cursor <= commits[m].cursor {
        assert front[i] in front && front[i] in commits[..m];
      }
    }
  }

  lemma LastCounts(commits: seq<Record>, ids: set<Id>, front: seq<Record>)
    requires commits != [] && forall r :: multiset(front)[r] <= multiset(commits[..|commits| - 1])[r]
    ensures var last := commits[|commits| - 1];
            forall r :: multiset(front + if last.id in ids then [] else [last])[r] <= multiset(commits)[r]
  {
    var m := |commits| - 1;
    assert commits == commits[..m] + [commits[m]];
  }

  function Eligible(web: Web, requiredRefs: seq<Id>, candidates: seq<Id>): (kept: seq<Id>)
    ensures forall id :: id in kept <==> id in candidates && (id !in web.replacements || id in requiredRefs)
  {
    if candidates == [] then []
    else
      var m := |candidates| - 1;
      Eligible(web, requiredRefs, candidates[..m])
      + if candidates[m] !in web.replacements || candidates[m] in requiredRefs then [candidates[m]] else []
  }

  /** The completion of one candidate beside the required evidence, if nothing of it is missing and it
      fits the budget. */
  method Complete(web: Web, required: set<Id>, identity: Id, budget: int) returns (commits: Option<seq<Record>>)
    requires Keyed(web.records)
    ensures commits.Some? <==> Reach(web, {identity}) <= web.records.Keys && SetSize(web.records, Adds(web, required, identity)) <= budget
    ensures commits.Some? ==>
              && Completes(web, required, Bundle(identity, commits.value))
              && Ids(commits.value) == Adds(web, required, identity)
              && Size(commits.value) == SetSize(web.records, Adds(web, required, identity))
  {
    hide Listed, Reach, Completes, InOrder, Size, Ids;
    var complete, absent := Closure(web, [identity]);
    RootsOne(identity);
    AbsentMeans(web, identity, absent);
    if absent != {} {
      return None;
    }
    var rest := Without(complete, required);
    WithoutListed(web, Reach(web, {identity}), complete, required);
    SizeListed(web, Adds(web, required, identity), rest);
    if Size(rest) > budget {
      return None;
    }
    CompletesMeans(web, required, identity, rest);
    ListedIds(web, Adds(web, required, identity), rest);
    return Some(rest);
  }

  lemma GreedyNext(web: Web, required: set<Id>, ranked: seq<Id>, max: int, n: nat)
    requires n < |ranked|
    ensures var c, root := Greedy(web, required, ranked[..n], max), ranked[n];
            Greedy(web, required, ranked[..n + 1], max)
            == if Takes(web, required, c, root)
               then Choice(c.roots + [root], c.included + Adds(web, required, root), c.left - SetSize(web.records, Adds(web, required, root)))
               else c
  {
    hide Takes, Adds;
    assert ranked[..n + 1][..n] == ranked[..n];
  }

  /** The bundles taken so far are the greedy choice so far. */
  ghost predicate Chosen(web: Web, required: set<Id>, c: Choice, max: int, bundles: seq<Bundle>) {
    && |bundles| == |c.roots| && (forall i :: 0 <= i < |bundles| ==> bundles[i].root == c.roots[i])
    && (forall i :: 0 <= i < |bundles| ==> Completes(web, required, bundles[i]))
    && TotalSize(bundles) == max - c.left && (bundles != [] ==> c.left >= 0)
  }

  lemma ChosenNext(web: Web, required: set<Id>, c: Choice, max: int, bundles: seq<Bundle>, b: Bundle, included: set<Id>)
    requires Chosen(web, required, c, max, bundles) && Completes(web, required, b) && Size(b.commits) <= c.left
    ensures Chosen(web, required, Choice(c.roots + [b.root], included, c.left - Size(b.commits)), max, bundles + [b])
  {
    hide Completes, Size;
    assert (bundles + [b])[..|bundles|] == bundles;
  }

  /** Read from the records: beside the required evidence and the bundles before it the root brings nothing of
      its own, or something it leads to is missing, or what it leads to does not fit what they leave. */
  ghost predicate PassedOver(records: map<Id, Record>, required: set<Id>, root: Id, before: seq<Bundle>, max: int) {
    || root in required + BundleIds(before)
    || forall ids: set<Id> :: LeastFollowed(records, {root}, ids) && ids <= records.Keys ==>
         SetSize(records, ids - required) > max - TotalSize(before)
  }

  /** The n-th in the ranking was passed over, seen from the bundles of those ranked before it. */
  ghost predicate PassedAt(records: map<Id, Record>, required: set<Id>, ranked: seq<Id>, max: int, bundles: seq<Bundle>, places: seq<nat>, n: nat)
    requires n < |ranked| && |places| == |bundles|
  {
    exists k :: 0 <= k <= |bundles| && (forall i :: 0 <= i < k ==> places[i] < n) && (forall i :: k <= i < |places| ==> places[i] > n)
                && PassedOver(records, required, ranked[n], bundles[..k], max)
  }

  /** The bundles stand at increasing places of the ranking, each of them where its root could not be passed
      over; at every other place it had to be. */
  ghost predicate InRanking(records: map<Id, Record>, required: set<Id>, ranked: seq<Id>, max: int, bundles: seq<Bundle>, places: seq<nat>) {
    && |places| == |bundles| && (forall i :: 0 <= i < |places| ==> places[i] < |ranked| && ranked[places[i]] == bundles[i].root)
    && (forall i, j :: 0 <= i < j < |places| ==> places[i] < places[j])
    && (forall i :: 0 <= i < |bundles| ==> !PassedOver(records, required, bundles[i].root, bundles[..i], max))
    && (forall n :: 0 <= n < |ranked| && n !in places ==> PassedAt(records, required, ranked, max, bundles, places, n))
  }

  lemma TakesReads(web: Web, required: set<Id>, c: Choice, bundles: seq<Bundle>, root: Id, max: int)
    requires Replaces(web.records, web.records.Keys, web.replacements)
    requires c.included == required + BundleIds(bundles) && c.left == max - TotalSize(bundles)
    ensures Takes(web, required, c, root) <==> !PassedOver(web.records, required, root, bundles, max)
  {
    hide Reach, Replaces, Followed, BundleIds, SetSize, TotalSize;
    ReachFollowed(web, {root});
    var reach := Reach(web, {root});
    forall ids: set<Id> | LeastFollowed(web.records, {root}, ids) ensures ids == reach {}
  }

  lemma RankedTaken(records: map<Id, Record>, required: set<Id>, ranked: seq<Id>, max: int, bundles: seq<Bundle>, places: seq<nat>, b: Bundle)
    requires InRanking(records, required, ranked, max, bundles, places) && !PassedOver(records, required, b.root, bundles, max)
    ensures InRanking(records, required, ranked + [b.root], max, bundles + [b], places + [|ranked|])
  {
    hide PassedOver, PassedAt;
    var more, chosen, at := ranked + [b.root], bundles + [b], places + [|ranked|];
    forall i | 0 <= i < |chosen| ensures !PassedOver(records, required, chosen[i].root, chosen[..i], max) {
      assert chosen[..i] == if i < |bundles| then bundles[..i] else bundles;
    }
    assert forall x :: x in places ==> x in at;
    forall n | 0 <= n < |more| && n !in at ensures PassedAt(records, required, more, max, chosen, at, n) {
      assert at[|places|] == |ranked|;
      StillPassed(records, required, ranked, max, bundles, places, b, n);
    }
  }

  lemma StillPassed(records: map<Id, Record>, required: set<Id>, ranked: seq<Id>, max: int, bundles: seq<Bundle>, places: seq<nat>, b: Bundle, n: nat)
    requires n < |ranked| && |places| == |bundles| && PassedAt(records, required, ranked, max, bundles, places, n)
    ensures PassedAt(records, required, ranked + [b.root], max, bundles + [b], places + [|ranked|], n)
  {
    hide PassedOver;
    var k :| 0 <= k <= |bundles| && (forall i :: 0 <= i < k ==> places[i] < n) && (forall i :: k <= i < |places| ==> places[i] > n)
             && PassedOver(records, required, ranked[n], bundles[..k], max);
    assert (bundles + [b])[..k] == bundles[..k];
  }

  lemma RankedPassed(records: map<Id, Record>, required: set<Id>, ranked: seq<Id>, max: int, bundles: seq<Bundle>, places: seq<nat>, root: Id)
    requires InRanking(records, required, ranked, max, bundles, places) && PassedOver(records, required, root, bundles, max)
    ensures InRanking(records, required, ranked + [root], max, bundles, places)
  {
    hide PassedOver;
    var more := ranked + [root];
    forall n | 0 <= n < |more| && n !in places ensures PassedAt(records, required, more, max, bundles, places, n) {
      if n < |ranked| {
        assert PassedAt(records, required, ranked, max, bundles, places, n);
      } else {
        assert bundles[..|bundles|] == bundles;
      }
    }
  }

  lemma ChosenSize(web: Web, required: set<Id>, b: Bundle)
    requires Keyed(web.records) && Completes(web, required, b)
    ensures Size(b.commits) == SetSize(web.records, Adds(web, required, b.root)) && Ids(b.commits) == Adds(web, required, b.root)
  {
    hide Reach, Listed, Ids;
    SizeListed(web, Adds(web, required, b.root), b.commits);
    ListedIds(web, Adds(web, required, b.root), b.commits);
  }

  lemma ChosenFront(web: Web, required: set<Id>, c: Choice, root: Id, max: int, bundles: seq<Bundle>)
    requires Keyed(web.records) && Takes(web, required, c, root)
    requires Chosen(web, required, Choice(c.roots + [root], c.included + Adds(web, required, root), c.left - SetSize(web.records, Adds(web, required, root))), max, bundles)
    ensures bundles != [] && bundles[|bundles| - 1].root == root && Chosen(web, required, c, max, bundles[..|bundles| - 1])
    ensures Ids(bundles[|bundles| - 1].commits) == Adds(web, required, root)
  {
    hide Completes, SetSize, Size, Reach, Ids;
    ChosenSize(web, required, bundles[|bundles| - 1]);
  }

  lemma GreedyTakes(web: Web, required: set<Id>, ranked: seq<Id>, root: Id, max: int, c: Choice, bundles: seq<Bundle>, last: Bundle, places: seq<nat>)
    requires Keyed(web.records) && Replaces(web.records, web.records.Keys, web.replacements)
    requires Chosen(web, required, c, max, bundles) && Takes(web, required, c, root)
    requires last.root == root && Ids(last.commits) == Adds(web, required, root)
    requires InRanking(web.records, required, ranked, max, bundles, places) && c.included == required + BundleIds(bundles)
    ensures InRanking(web.records, required, ranked + [root], max, bundles + [last], places + [|ranked|])
    ensures c.included + Adds(web, required, root) == required + BundleIds(bundles + [last])
  {
    hide Keyed, Replaces, Takes, Adds, PassedOver, InRanking, Completes, Ids;
    TakesReads(web, required, c, bundles, root, max);
    RankedTaken(web.records, required, ranked, max, bundles, places, last);
    assert (bundles + [last])[..|bundles|] == bundles;
  }

  lemma GreedyPasses(web: Web, required: set<Id>, ranked: seq<Id>, root: Id, max: int, c: Choice, bundles: seq<Bundle>, places: seq<nat>)
    requires Replaces(web.records, web.records.Keys, web.replacements)
    requires Chosen(web, required, c, max, bundles) && !Takes(web, required, c, root)
    requires InRanking(web.records, required, ranked, max, bundles, places) && c.included == required + BundleIds(bundles)
    ensures InRanking(web.records, required, ranked + [root], max, bundles, places)
  {
    hide Replaces, Takes, PassedOver, InRanking, Completes;
    TakesReads(web, required, c, bundles, root, max);
    RankedPassed(web.records, required, ranked, max, bundles, places, root);
  }

  lemma GreedyLast(web: Web, required: set<Id>, ranked: seq<Id>, max: int)
    requires ranked != []
    ensures var c, root := Greedy(web, required, ranked[..|ranked| - 1], max), ranked[|ranked| - 1];
            Greedy(web, required, ranked, max)
            == if Takes(web, required, c, root)
               then Choice(c.roots + [root], c.included + Adds(web, required, root), c.left - SetSize(web.records, Adds(web, required, root)))
               else c
  {
    hide SetSize;
  }

  lemma NothingRanked(web: Web, required: set<Id>, max: int, bundles: seq<Bundle>)
    requires Chosen(web, required, Greedy(web, required, [], max), max, bundles)
    ensures InRanking(web.records, required, [], max, bundles, [])
    ensures Greedy(web, required, [], max).included == required + BundleIds(bundles)
  {
    assert bundles == [];
  }

  /** The greedy choice, without the choice: what is taken and what is passed over, place by place. */
  lemma {:induction false} GreedyInRanking(web: Web, required: set<Id>, ranked: seq<Id>, max: int, bundles: seq<Bundle>) returns (places: seq<nat>)
    requires Keyed(web.records) && Replaces(web.records, web.records.Keys, web.replacements)
    requires Chosen(web, required, Greedy(web, required, ranked, max), max, bundles)
    ensures InRanking(web.records, required, ranked, max, bundles, places)
    ensures Greedy(web, required, ranked, max).included == required + BundleIds(bundles)
    decreases |ranked|
  {
    hide Greedy, Keyed, Replaces, Takes, Adds, SetSize, PassedOver, InRanking, Chosen, BundleIds, Ids;
    if ranked == [] {
      places := [];
      NothingRanked(web, required, max, bundles);
    } else {
      GreedyLast(web, required, ranked, max);
      var n := |ranked| - 1;
      var front, root := ranked[..n], ranked[n];
      var c := Greedy(web, required, front, max);
      assert ranked == front + [root];
      if Takes(web, required, c, root) {
        ChosenFront(web, required, c, root, max, bundles);
        var before, last := bundles[..|bundles| - 1], bundles[|bundles| - 1];
        places := GreedyInRanking(web, required, front, max, before);
        GreedyTakes(web, required, front, root, max, c, before, last, places);
        assert before + [last] == bundles;
        places := places + [n];
      } else {
        places := GreedyInRanking(web, required, front, max, bundles);
        GreedyPasses(web, required, front, root, max, c, bundles, places);
      }
    }
  }

  /** `select_memories` from the recalled candidates on: completes the required evidence, drops
      superseded candidates, and takes bundles in the order of the ranking policy. */
  method SelectMemories(records: map<Id, Record>, requiredRefs: seq<Id>, candidates: seq<Id>, rank: seq<Id> -> seq<Id>, max: int)
    returns (web: Web, required: seq<Record>, bundles: seq<Bundle>, missing: set<Id>)
    requires Keyed(records)
    ensures web.records == records && Replaces(records, records.Keys, web.replacements)
    ensures Listed(web, Reach(web, Roots(requiredRefs)), required) && InOrder(required)
    ensures missing == set id | id in Reach(web, Roots(requiredRefs)) && id !in records
    ensures LeastFollowed(records, Roots(requiredRefs), Ids(required) + missing) && missing !! records.Keys
    ensures forall i :: 0 <= i < |bundles| ==> Completes(web, Ids(required), bundles[i]) && Gathers(records, Ids(required), bundles[i])
    ensures var c := Greedy(web, Ids(required), rank(Eligible(web, requiredRefs, candidates)), max);
            && |bundles| == |c.roots| && (forall i :: 0 <= i < |bundles| ==> bundles[i].root == c.roots[i])
            && TotalSize(bundles) == max - c.left
    ensures TotalSize(bundles) <= if max < 0 then 0 else max
    ensures exists places :: InRanking(records, Ids(required), rank(Eligible(web, requiredRefs, candidates)), max, bundles, places)
  {
    hide InRanking, BundleIds, TotalSize, LeastFollowed, Gathers, Listed, Reach, Replaces, Completes, Takes, InOrder, Size, Greedy, Adds, Chosen, Ids, Eligible;
    var replacements := Replacements(records);
    web := Web(records, replacements);
    required, missing := Closure(web, requiredRefs);
    var requiredIds := Ids(required);
    var included := requiredIds;
    var ranked := rank(Eligible(web, requiredRefs, candidates));
    var budget := max;
    bundles := [];
    GreedyFirst(web, requiredIds, ranked, max);
    for n := 0 to |ranked|
      invariant Greedy(web, requiredIds, ranked[..n], max).included == included
      invariant Greedy(web, requiredIds, ranked[..n], max).left == budget
      invariant Chosen(web, requiredIds, Greedy(web, requiredIds, ranked[..n], max), max, bundles)
    {
      var identity := ranked[n];
      ghost var c := Greedy(web, requiredIds, ranked[..n], max);
      GreedyNext(web, requiredIds, ranked, max, n);
      TakesMeans(web, requiredIds, c, identity);
      if identity in included {
        continue;
      }
      var commits := Complete(web, requiredIds, identity, budget);
      if commits.None? {
        continue;
      }
      ChosenNext(web, requiredIds, c, max, bundles, Bundle(identity, commits.value), c.included + Adds(web, requiredIds, identity));
      bundles := bundles + [Bundle(identity, commits.value)];
      included := included + Ids(commits.value);
      budget := budget - Size(commits.value);
    }
    assert ranked[..|ranked|] == ranked;
    ChosenMeans(web, requiredIds, Greedy(web, requiredIds, ranked, max), max, bundles);
    RequiredFollowed(web, Roots(requiredRefs), required, missing);
    ghost var places := GreedyInRanking(web, requiredIds, ranked, max, bundles);
    forall i | 0 <= i < |bundles| ensures Gathers(records, requiredIds, bundles[i]) {
      CompletesGathers(web, requiredIds, bundles[i]);
    }
  }

  lemma GreedyFirst(web: Web, required: set<Id>, ranked: seq<Id>, max: int)
    ensures Greedy(web, required, ranked[..0], max) == Choice([], required, max)
    ensures Chosen(web, required, Choice([], required, max), max, [])
  {}

  lemma ChosenMeans(web: Web, required: set<Id>, c: Choice, max: int, bundles: seq<Bundle>)
    requires Chosen(web, required, c, max, bundles)
    ensures |bundles| == |c.roots| && (forall i :: 0 <= i < |bundles| ==> bundles[i].root == c.roots[i])
    ensures forall i :: 0 <= i < |bundles| ==> Completes(web, required, bundles[i])
    ensures TotalSize(bundles) == max - c.left && TotalSize(bundles) <= if max < 0 then 0 else max
  {
    hide Completes, Size;
  }

  lemma TakesMeans(web: Web, required: set<Id>, c: Choice, root: Id)
    ensures Takes(web, required, c, root)
       <==> root !in c.included && Reach(web, {root}) <= web.records.Keys && SetSize(web.records, Adds(web, required, root)) <= c.left
  {}

  lemma RootsOne(id: Id)
    ensures Roots([id]) == {id}
  {
    assert [id][0] == id;
  }

  lemma AbsentMeans(web: Web, id: Id, absent: set<Id>)
    requires absent == set x | x in Reach(web, {id}) && x !in web.records
    ensures absent == {} <==> Reach(web, {id}) <= web.records.Keys
  {
    hide Reach;
    if absent == {} {
      forall x | x in Reach(web, {id}) ensures x in web.records {
        assert x !in absent;
      }
    }
  }

  lemma WithoutListed(web: Web, ids: set<Id>, complete: seq<Record>, required: set<Id>)
    requires Listed(web, ids, complete) && InOrder(complete)
    ensures Listed(web, ids - required, Without(complete, required)) && InOrder(Without(complete, required))
  {
    hide Without, InOrder;
  }

  lemma CompletesMeans(web: Web, required: set<Id>, root: Id, commits: seq<Record>)
    requires Reach(web, {root}) <= web.records.Keys && Listed(web, Adds(web, required, root), commits) && InOrder(commits)
    ensures Completes(web, required, Bundle(root, commits))
  {}

  lemma ListedIds(web: Web, ids: set<Id>, commits: seq<Record>)
    requires Keyed(web.records) && ids <= web.records.Keys && Listed(web, ids, commits)
    ensures Ids(commits) == ids
  {
    forall id ensures id in Ids(commits) <==> id in ids {
      if id in ids {
        assert web.records[id] in commits;
      }
      if id in Ids(commits) {
        var k :| 0 <= k < |commits| && commits[k].id == id;
        assert commits[k] in commits;
      }
    }
  }

  // ---------------------------------------------------------------- what a selection guarantees

  /** The required evidence and any set of completed bundles are closed under every link, up to what
      the required evidence already lacks. */
  lemma {:induction false} BundlesClosed(web: Web, requiredRefs: set<Id>, required: set<Id>, bundles: seq<Bundle>, ids: set<Id>)
    requires Keyed(web.records) && required == set id | id in Reach(web, requiredRefs) && id in web.records
    requires forall i :: 0 <= i < |bundles| ==> Completes(web, required, bundles[i])
    requires ids == required + BundleIds(bundles)
    ensures forall id, n :: id in ids && n in Next(web, id) ==> n in ids || (n in Reach(web, requiredRefs) && n !in web.records)
  {
    hide Reach, Next, Listed;
    ReachLeast(web, requiredRefs);
    forall id, n | id in ids && n in Next(web, id) ensures n in ids || (n in Reach(web, requiredRefs) && n !in web.records) {
      if id !in required {
        InBundles(bundles, id);
        var i :| 0 <= i < |bundles| && id in Ids(bundles[i].commits);
        var b := bundles[i];
        ListedIds(web, Adds(web, required, b.root), b.commits);
        ReachLeast(web, {b.root});
        if n !in required {
          InBundles(bundles, n);
          assert n in Ids(b.commits);
        }
      }
    }
  }

  function BundleIds(bundles: seq<Bundle>): set<Id> {
    if bundles == [] then {} else BundleIds(bundles[..|bundles| - 1]) + Ids(bundles[|bundles| - 1].commits)
  }

  lemma {:induction false} InBundles(bundles: seq<Bundle>, id: Id)
    ensures id in BundleIds(bundles) <==> exists i :: 0 <= i < |bundles| && id in Ids(bundles[i].commits)
  {
    hide Ids;
    if bundles != [] {
      var m := |bundles| - 1;
      InBundles(bundles[..m], id);
      if i :| 0 <= i < |bundles| && id in Ids(bundles[i].commits) {
        assert i < m ==> id in Ids(bundles[..m][i].commits);
      }
      if i :| 0 <= i < m && id in Ids(bundles[..m][i].commits) {
        assert id in Ids(bundles[i].commits);
      }
    }
  }
}
