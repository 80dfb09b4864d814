/** Module resolution (src/aurora_kernel/resolve.py): dropping optional modules, choosing providers,
    and compiling the construction order and the module list of each phase. Names of modules,
    capabilities and contribution points enter only through equality and order. */
module Resolve {
  import opened Common
  import opened Topological

  datatype PhaseKind = Setup | Build | Hook | Task

  datatype Phase = Phase(name: string, order: int, kind: PhaseKind, shutdown: bool)

  const PREPARE := Phase("prepare", 100, Setup, false)
  const CONSTRUCT := Phase("construct", 200, Build, false)

  datatype Ordering = Ordering(phase: Phase, after: seq<Name>, afterPhase: Option<Phase>)

  /** `extended` says that the module has handlers or call points; `accepted` that its manifest
      accepts the kernel API. */
  datatype Spec = Spec(
    id: Name, depends: seq<Name>, offered: seq<Name>, requirements: seq<Name>, contributes: seq<Name>,
    consumes: seq<Name>, declares: seq<Name>, priority: int, optional: bool, order: seq<Ordering>,
    hooks: set<Phase>, extended: bool, accepted: bool)

  datatype Resolution = Resolution(construction: seq<Spec>, providers: map<Name, Spec>, modules: seq<Spec>)

  datatype ResolveError =
    | IncompatibleApi(id: Name)
    | DuplicateName(id: Name)
    | AmbiguousProvider(capability: Name)
    | SelfDependency(id: Name)
    | MissingNamespace(id: Name, name: Name)
    | MissingProvider(id: Name, capability: Name)
    | Undeclared(key: Name)
    | DeclaredTwice(key: Name)
    | LateOrdering(id: Name)
    | Cycle(names: set<Name>)

  // ---------------------------------------------------------------- collections of specs

  function SetOf(specs: seq<Spec>): set<Spec> {
    set s | s in specs
  }

  function Names(specs: seq<Spec>): (r: seq<Name>)
    ensures |r| == |specs|
  {
    seq(|specs|, i requires 0 <= i < |specs| => specs[i].id)
  }

  predicate UniqueIds(specs: seq<Spec>) {
    forall i, j :: 0 <= i < j < |specs| ==> specs[i].id != specs[j].id
  }

  /** The members of `keep`, in the order of `specs`. */
  function Keep(specs: seq<Spec>, keep: set<Spec>): seq<Spec> {
    if specs == [] then []
    else (if specs[0] in keep then [specs[0]] else []) + Keep(specs[1..], keep)
  }

  lemma {:induction false} KeepMembers(specs: seq<Spec>, keep: set<Spec>)
    ensures forall s :: s in Keep(specs, keep) <==> s in specs && s in keep
    ensures |Keep(specs, keep)| <= |specs|
    ensures (exists s :: s in specs && s !in keep) ==> |Keep(specs, keep)| < |specs|
    ensures UniqueIds(specs) ==> UniqueIds(Keep(specs, keep))
  {
    if specs != [] {
      var rest := Keep(specs[1..], keep);
      KeepMembers(specs[1..], keep);
      assert forall s :: s in specs <==> s == specs[0] || s in specs[1..];
      if UniqueIds(specs) && specs[0] in keep {
        forall j | 0 <= j < |rest| ensures rest[j].id != specs[0].id {
          assert rest[j] in rest;
          var i :| 0 <= i < |specs[1..]| && specs[1..][i] == rest[j];
          assert specs[i + 1].id != specs[0].id;
        }
      }
    }
  }

  lemma {:induction false} KeepKeep(specs: seq<Spec>, outer: set<Spec>, inner: set<Spec>)
    requires inner <= outer
    ensures Keep(Keep(specs, outer), inner) == Keep(specs, inner)
  {
    if specs != [] {
      KeepKeep(specs[1..], outer, inner);
      var head := if specs[0] in outer then [specs[0]] else [];
      assert Keep(specs, outer) == head + Keep(specs[1..], outer);
      if specs[0] in outer {
        assert Keep(specs, outer)[1..] == Keep(specs[1..], outer);
      } else {
        assert Keep(specs, outer) == Keep(specs[1..], outer);
      }
    }
  }

  lemma {:induction false} KeepAll(specs: seq<Spec>, keep: set<Spec>)
    requires forall s :: s in specs ==> s in keep
    ensures Keep(specs, keep) == specs
  {
    if specs != [] {
      KeepAll(specs[1..], keep);
      assert specs == [specs[0]] + specs[1..];
    }
  }

  // ---------------------------------------------------------------- optional modules

  function Provided(specs: set<Spec>): set<Name> {
    set s, c | s in specs && c in s.offered :: c
  }

  function IdsOf(specs: set<Spec>): set<Name> {
    set s | s in specs :: s.id
  }

  predicate IsUnsatisfied(spec: Spec, available: set<Name>, namespaces: set<Name>) {
    spec.optional &&
    ((exists r :: r in spec.requirements && r !in available) || (exists d :: d in spec.depends && d !in namespaces))
  }

  /** No optional member lacks a capability or a namespace within the set. */
  ghost predicate Stable(kept: set<Spec>) {
    forall s :: s in kept ==> !IsUnsatisfied(s, Provided(kept), IdsOf(kept))
  }

  /** The largest stable part of the listing. */
  ghost predicate GreatestStable(listed: seq<Spec>, kept: set<Spec>) {
    && kept <= SetOf(listed) && Stable(kept)
    && (forall other :: other <= SetOf(listed) && Stable(other) ==> other <= kept)
  }

  lemma GreatestIsUnique(listed: seq<Spec>, a: set<Spec>, b: set<Spec>)
    requires GreatestStable(listed, a) && GreatestStable(listed, b)
    ensures a == b
  {}

  /** What is unsatisfied in a larger set is unsatisfied in every smaller one. */
  lemma UnsatisfiedStays(spec: Spec, smaller: set<Spec>, larger: set<Spec>)
    requires smaller <= larger && IsUnsatisfied(spec, Provided(larger), IdsOf(larger))
    ensures IsUnsatisfied(spec, Provided(smaller), IdsOf(smaller))
  {
    assert Provided(smaller) <= Provided(larger);
    assert IdsOf(smaller) <= IdsOf(larger);
  }

  /** What the module requires is offered, and what it depends on is present, among `kept`. */
  ghost predicate Served(spec: Spec, kept: set<Spec>) {
    && (forall q :: q in spec.requirements ==> exists t :: t in kept && q in t.offered)
    && (forall d :: d in spec.depends ==> exists t :: t in kept && t.id == d)
  }

  /** Read without the filter: every optional module kept is served by what is kept, and nothing more could
      have been kept that way. */
  lemma KeptServed(listed: seq<Spec>, kept: set<Spec>, other: set<Spec>)
    requires GreatestStable(listed, kept)
    ensures kept <= SetOf(listed) && forall s :: s in kept && s.optional ==> Served(s, kept)
    ensures other <= SetOf(listed) && (forall s :: s in other && s.optional ==> Served(s, other)) ==> other <= kept
  {
    ServedIsSatisfied(kept);
    ServedIsSatisfied(other);
  }

  lemma ServedIsSatisfied(kept: set<Spec>)
    ensures forall s :: s in kept ==> (IsUnsatisfied(s, Provided(kept), IdsOf(kept)) <==> s.optional && !Served(s, kept))
  {
    forall s | s in kept ensures IsUnsatisfied(s, Provided(kept), IdsOf(kept)) <==> s.optional && !Served(s, kept) {
      assert forall q :: q in Provided(kept) <==> exists t :: t in kept && q in t.offered;
      assert forall d :: d in IdsOf(kept) <==> exists t :: t in kept && t.id == d;
    }
  }

  lemma OnlyOptional(spec: Spec, available: set<Name>, namespaces: set<Name>)
    ensures IsUnsatisfied(spec, available, namespaces) ==> spec.optional
  {}

  method DropUnsatisfiedOptional(specs: seq<Spec>) returns (remaining: seq<Spec>)
    requires UniqueIds(specs)
    ensures GreatestStable(specs, SetOf(remaining)) && UniqueIds(remaining)
    ensures remaining == Keep(specs, SetOf(remaining))
    ensures forall s :: s in specs && !s.optional ==> s in remaining
  {
    hide Provided, IdsOf, IsUnsatisfied, Keep, UniqueIds;
    remaining := specs;
    KeepAll(specs, SetOf(specs));
    while true
      invariant UniqueIds(remaining) && SetOf(remaining) <= SetOf(specs)
      invariant remaining == Keep(specs, SetOf(remaining))
      invariant forall other :: other <= SetOf(specs) && Stable(other) ==> other <= SetOf(remaining)
      invariant forall s :: s in specs && !s.optional ==> s in remaining
      decreases |remaining|
    {
      var all := SetOf(remaining);
      var available, namespaces := Provided(all), IdsOf(all);
      var skipped := set s | s in remaining && IsUnsatisfied(s, available, namespaces) :: s.id;
      assert forall s :: s in all && IsUnsatisfied(s, available, namespaces) ==> s.id in skipped;
      if skipped == {} {
        return;
      }
      var kept := set s | s in remaining && s.id !in skipped;
      forall s | s in remaining
        ensures s in kept <==> !IsUnsatisfied(s, available, namespaces)
        ensures !s.optional ==> s in kept
      {
        OnlyOptional(s, available, namespaces);
        if s.id in skipped {
          var t :| t in remaining && IsUnsatisfied(t, available, namespaces) && t.id == s.id;
          SameId(remaining, s, t);
        }
      }
      forall other | other <= SetOf(specs) && Stable(other) ensures other <= kept {
        forall s | s in other ensures s in kept {
          assert s in SetOf(remaining);
          if IsUnsatisfied(s, available, namespaces) { UnsatisfiedStays(s, other, all); }
        }
      }
      KeepMembers(remaining, kept);
      KeepKeep(specs, all, kept);
      remaining := Keep(remaining, kept);
      assert SetOf(remaining) == kept;
    }
  }

  lemma SameId(specs: seq<Spec>, s: Spec, t: Spec)
    requires UniqueIds(specs) && s in specs && t in specs && s.id == t.id
    ensures s == t
  {
    var i :| 0 <= i < |specs| && specs[i] == s;
    var j :| 0 <= j < |specs| && specs[j] == t;
    assert i == j;
  }

  // ---------------------------------------------------------------- providers

  /** One entry for every time a module lists the capability. */
  function Offers(specs: seq<Spec>, capability: Name): seq<Spec> {
    if specs == [] then []
    else
      var n := |specs| - 1;
      Offers(specs[..n], capability) + Times(specs[n], specs[n].offered, capability)
  }

  function Times(spec: Spec, offered: seq<Name>, capability: Name): seq<Spec> {
    if offered == [] then []
    else
      var n := |offered| - 1;
      Times(spec, offered[..n], capability) + if offered[n] == capability then [spec] else []
  }

  /** One entry has a priority above all the others. */
  ghost predicate Wins(offers: seq<Spec>, winner: Spec) {
    exists i :: 0 <= i < |offers| && offers[i] == winner &&
                forall j :: 0 <= j < |offers| && j != i ==> offers[j].priority < winner.priority
  }

  /** Two entries share the highest priority. */
  ghost predicate TiedAtTop(offers: seq<Spec>) {
    exists i, j :: 0 <= i < j < |offers| && offers[i].priority == offers[j].priority &&
                   forall k :: 0 <= k < |offers| ==> offers[k].priority <= offers[i].priority
  }

  lemma {:induction false} OffersMembers(specs: seq<Spec>, capability: Name)
    ensures forall s :: s in Offers(specs, capability) <==> s in specs && capability in s.offered
  {
    if specs != [] {
      var n := |specs| - 1;
      OffersMembers(specs[..n], capability);
      TimesMembers(specs[n], specs[n].offered, capability);
      assert forall s :: s in specs <==> s in specs[..n] || s == specs[n];
    }
  }

  lemma {:induction false} TimesMembers(spec: Spec, offered: seq<Name>, capability: Name)
    ensures forall s :: s in Times(spec, offered, capability) <==> s == spec && capability in offered
  {
    if offered != [] {
      var n := |offered| - 1;
      TimesMembers(spec, offered[..n], capability);
      assert forall c :: c in offered <==> c in offered[..n] || c == offered[n];
    }
  }

  /** A module enters the choice once for each time it lists the capability. */
  lemma {:induction false} OffersCount(specs: seq<Spec>, capability: Name, s: Spec)
    requires UniqueIds(specs) && s in specs
    ensures multiset(Offers(specs, capability))[s] == multiset(s.offered)[capability]
  {
    var n := |specs| - 1;
    var last := specs[n];
    OffersLast(specs, capability);
    hide Offers, Times;
    TimesCount(last, last.offered, capability);
    TimesMembers(last, last.offered, capability);
    OffersMembers(specs[..n], capability);
    if s == last {
      Absent(Offers(specs[..n], capability), s);
    } else {
      Absent(Times(last, last.offered, capability), s);
      OffersCount(specs[..n], capability, s);
    }
  }

  lemma OffersLast(specs: seq<Spec>, capability: Name)
    requires specs != []
    ensures var n := |specs| - 1;
            Offers(specs, capability) == Offers(specs[..n], capability) + Times(specs[n], specs[n].offered, capability)
  {}

  lemma Absent(specs: seq<Spec>, s: Spec)
    requires s !in specs
    ensures multiset(specs)[s] == 0
  {}

  lemma {:induction false} TimesCount(spec: Spec, offered: seq<Name>, capability: Name)
    ensures multiset(Times(spec, offered, capability))[spec] == multiset(offered)[capability]
  {
    if offered != [] {
      var n := |offered| - 1;
      TimesCount(spec, offered[..n], capability);
      assert offered == offered[..n] + [offered[n]];
    }
  }

  /** The provider chosen for a capability outranks every other module that offers it. */
  lemma WinnerOutranks(specs: seq<Spec>, capability: Name, winner: Spec)
    requires Wins(Offers(specs, capability), winner)
    ensures winner in specs && capability in winner.offered && !TiedAtTop(Offers(specs, capability))
    ensures forall s :: s in specs && capability in s.offered && s != winner ==> s.priority < winner.priority
  {
    OffersMembers(specs, capability);
    var offers := Offers(specs, capability);
    forall s | s in specs && capability in s.offered && s != winner ensures s.priority < winner.priority {
      var j :| 0 <= j < |offers| && offers[j] == s;
    }
  }

  function Entry(grouped: map<Name, seq<Spec>>, capability: Name): seq<Spec> {
    if capability in grouped then grouped[capability] else []
  }

  function AddEntry(grouped: map<Name, seq<Spec>>, capability: Name, spec: Spec): map<Name, seq<Spec>> {
    grouped[capability := Entry(grouped, capability) + [spec]]
  }

  lemma TimesNext(spec: Spec, k: nat, c: Name)
    requires k < |spec.offered|
    ensures Times(spec, spec.offered[..k + 1], c) == Times(spec, spec.offered[..k], c) + if spec.offered[k] == c then [spec] else []
  {
    assert spec.offered[..k + 1][..k] == spec.offered[..k];
  }

  lemma AddOffer(grouped: map<Name, seq<Spec>>, before: map<Name, seq<Spec>>, spec: Spec, k: nat)
    requires k < |spec.offered|
    requires forall c :: Entry(before, c) == Entry(grouped, c) + Times(spec, spec.offered[..k], c)
    ensures forall c :: Entry(AddEntry(before, spec.offered[k], spec), c) == Entry(grouped, c) + Times(spec, spec.offered[..k + 1], c)
  {
    hide Times, Entry, AddEntry;
    forall c
      ensures Entry(AddEntry(before, spec.offered[k], spec), c) == Entry(grouped, c) + Times(spec, spec.offered[..k + 1], c)
    {
      TimesNext(spec, k, c);
      AddedEntry(before, spec.offered[k], spec, c);
      var last := if spec.offered[k] == c then [spec] else [];
      assert Entry(grouped, c) + Times(spec, spec.offered[..k], c) + last == Entry(grouped, c) + (Times(spec, spec.offered[..k], c) + last);
    }
  }

  lemma AddedEntry(before: map<Name, seq<Spec>>, capability: Name, spec: Spec, c: Name)
    ensures Entry(AddEntry(before, capability, spec), c) == Entry(before, c) + if capability == c then [spec] else []
  {}

  lemma NoTimes(spec: Spec)
    ensures forall c :: Times(spec, [], c) == []
  {}

  method AddOffers(grouped: map<Name, seq<Spec>>, spec: Spec) returns (after: map<Name, seq<Spec>>)
    requires forall c :: c in grouped ==> grouped[c] != []
    ensures forall c :: c in after ==> after[c] != []
    ensures forall c :: Entry(after, c) == Entry(grouped, c) + Times(spec, spec.offered, c)
  {
    hide Times;
    after := grouped;
    assert forall c :: Times(spec, spec.offered[..0], c) == [] by { NoTimes(spec); }
    for k := 0 to |spec.offered|
      invariant forall c :: c in after ==> after[c] != []
      invariant forall c :: Entry(after, c) == Entry(grouped, c) + Times(spec, spec.offered[..k], c)
    {
      AddOffer(grouped, after, spec, k);
      after := AddEntry(after, spec.offered[k], spec);
    }
    assert spec.offered[..|spec.offered|] == spec.offered;
  }

  method Group(specs: seq<Spec>) returns (grouped: map<Name, seq<Spec>>)
    ensures grouped.Keys == Provided(SetOf(specs))
    ensures forall c :: c in grouped ==> grouped[c] == Offers(specs, c) && grouped[c] != []
  {
    hide Provided, Times;
    grouped := map[];
    for i := 0 to |specs|
      invariant forall c :: Entry(grouped, c) == Offers(specs[..i], c)
      invariant forall c :: c in grouped ==> grouped[c] != []
    {
      assert specs[..i + 1][..i] == specs[..i];
      grouped := AddOffers(grouped, specs[i]);
    }
    assert specs[..|specs|] == specs;
    GroupKeys(specs, grouped);
  }

  lemma GroupKeys(specs: seq<Spec>, grouped: map<Name, seq<Spec>>)
    requires forall c :: Entry(grouped, c) == Offers(specs, c)
    requires forall c :: c in grouped ==> grouped[c] != []
    ensures grouped.Keys == Provided(SetOf(specs))
    ensures forall c :: c in grouped ==> grouped[c] == Offers(specs, c)
  {
    hide Offers;
    forall c ensures c in grouped <==> c in Provided(SetOf(specs)) {
      OffersMembers(specs, c);
      assert Entry(grouped, c) == Offers(specs, c);
      if c in grouped {
        assert grouped[c][0] in Offers(specs, c);
      }
      if c in Provided(SetOf(specs)) {
        var s :| s in SetOf(specs) && c in s.offered;
        assert s in Offers(specs, c);
      }
    }
    forall c | c in grouped ensures grouped[c] == Offers(specs, c) { assert Entry(grouped, c) == Offers(specs, c); }
  }

  /** `sorted(..., key=(-priority, id))`. */
  predicate Ranked(a: Spec, b: Spec) {
    a.priority > b.priority || (a.priority == b.priority && a.id <= b.id)
  }

  function Insert(specs: seq<Spec>, spec: Spec): seq<Spec> {
    if specs == [] || Ranked(spec, specs[0]) then [spec] + specs
    else [specs[0]] + Insert(specs[1..], spec)
  }

  function Rank(specs: seq<Spec>): seq<Spec> {
    if specs == [] then [] else Insert(Rank(specs[1..]), specs[0])
  }

  ghost predicate IsRanked(specs: seq<Spec>) {
    forall i, j :: 0 <= i < j < |specs| ==> Ranked(specs[i], specs[j])
  }

  lemma {:induction false} InsertEntries(specs: seq<Spec>, spec: Spec)
    ensures multiset(Insert(specs, spec)) == multiset(specs) + multiset{spec}
  {
    if specs != [] && !Ranked(spec, specs[0]) {
      hide Ranked;
      InsertEntries(specs[1..], spec);
      assert specs == [specs[0]] + specs[1..];
    }
  }

  lemma {:induction false} InsertRanked(specs: seq<Spec>, spec: Spec)
    requires IsRanked(specs)
    ensures IsRanked(Insert(specs, spec)) && multiset(Insert(specs, spec)) == multiset(specs) + multiset{spec}
  {
    InsertEntries(specs, spec);
    if specs != [] && !Ranked(spec, specs[0]) {
      InsertRanked(specs[1..], spec);
      var rest := Insert(specs[1..], spec);
      forall s | s in rest ensures Ranked(specs[0], s) {
        RankedInsert(specs[1..], spec, s);
        if s != spec {
          var i :| 0 <= i < |specs[1..]| && specs[1..][i] == s;
          assert Ranked(specs[0], specs[i + 1]);
        }
      }
      RankedCons(specs[0], rest);
    } else {
      forall s | s in specs ensures Ranked(spec, s) {
        var i :| 0 <= i < |specs| && specs[i] == s;
        assert i > 0 ==> Ranked(specs[0], specs[i]);
      }
      RankedCons(spec, specs);
    }
  }

  lemma RankedCons(first: Spec, rest: seq<Spec>)
    requires IsRanked(rest) && forall s :: s in rest ==> Ranked(first, s)
    ensures IsRanked([first] + rest)
  {}

  lemma RankedInsert(specs: seq<Spec>, spec: Spec, s: Spec)
    requires s in Insert(specs, spec)
    ensures s in specs || s == spec
  {
    InsertEntries(specs, spec);
    hide Insert, Ranked;
    assert s in multiset(Insert(specs, spec));
  }

  lemma {:induction false} RankRanked(specs: seq<Spec>)
    ensures IsRanked(Rank(specs)) && multiset(Rank(specs)) == multiset(specs) && |Rank(specs)| == |specs|
  {
    hide Insert, IsRanked;
    if specs != [] {
      RankRanked(specs[1..]);
      InsertRanked(Rank(specs[1..]), specs[0]);
      assert specs == [specs[0]] + specs[1..];
    } else {
      NothingRanked();
    }
    assert |multiset(Rank(specs))| == |multiset(specs)|;
  }

  lemma NothingRanked()
    ensures IsRanked([])
  {}

  lemma RemoveOne(offers: seq<Spec>, i: nat)
    requires i < |offers|
    ensures multiset(offers) == multiset(offers[..i] + offers[i + 1..]) + multiset{offers[i]}
  {
    assert offers == offers[..i] + [offers[i]] + offers[i + 1..];
  }

  /** The head of a ranked listing is an entry, and the entries besides it are the tail. */
  lemma HeadPosition(offers: seq<Spec>, ranked: seq<Spec>) returns (i: nat)
    requires ranked != [] && multiset(offers) == multiset(ranked)
    ensures i < |offers| && offers[i] == ranked[0]
    ensures multiset(offers[..i] + offers[i + 1..]) == multiset(ranked[1..])
  {
    assert ranked == [ranked[0]] + ranked[1..];
    assert ranked[0] in multiset(offers);
    i :| 0 <= i < |offers| && offers[i] == ranked[0];
    RemoveOne(offers, i);
    assert multiset(ranked[1..]) == multiset(ranked) - multiset{ranked[0]};
  }

  /** The best-ranked entry sits somewhere in the offers, and the next one sits elsewhere. */
  lemma TopTwoPositions(offers: seq<Spec>) returns (i: nat, j: nat)
    requires |offers| >= 2
    ensures |Rank(offers)| == |offers| && i < |offers| && j < |offers| && i != j
    ensures offers[i] == Rank(offers)[0] && offers[j] == Rank(offers)[1]
    ensures forall k :: 0 <= k < |offers| && k != i ==> Ranked(Rank(offers)[1], offers[k]) || offers[k] == Rank(offers)[1]
  {
    RankRanked(offers);
    hide Rank;
    var ranked := Rank(offers);
    i := HeadPosition(offers, ranked);
    var rest := offers[..i] + offers[i + 1..];
    var at := HeadPosition(rest, ranked[1..]);
    j := if at < i then at else at + 1;
    forall k | 0 <= k < |offers| && k != i ensures Ranked(ranked[1], offers[k]) || offers[k] == ranked[1] {
      assert offers[k] == rest[if k < i then k else k - 1];
      assert offers[k] in multiset(rest);
      var m :| 0 <= m < |ranked[1..]| && ranked[1..][m] == offers[k];
      assert m > 0 ==> Ranked(ranked[1], ranked[m + 1]);
    }
  }

  /** Comparing the two best-ranked entries decides between a winner and a tie. */
  lemma TopTwoDecide(offers: seq<Spec>)
    requires |offers| >= 2
    ensures |Rank(offers)| == |offers|
    ensures Rank(offers)[0].priority == Rank(offers)[1].priority ==> TiedAtTop(offers)
    ensures Rank(offers)[0].priority != Rank(offers)[1].priority ==> Wins(offers, Rank(offers)[0])
  {
    var i, j := TopTwoPositions(offers);
    RankRanked(offers);
    hide Rank;
    assert Ranked(Rank(offers)[0], Rank(offers)[1]);
    if offers[i].priority == offers[j].priority {
      var lo, hi := if i < j then i else j, if i < j then j else i;
      assert offers[lo].priority == offers[hi].priority;
      assert forall k :: 0 <= k < |offers| ==> offers[k].priority <= offers[lo].priority;
    }
  }

  method Providers(specs: seq<Spec>) returns (r: Result<map<Name, Spec>, Name>)
    ensures r.Ok? ==> r.value.Keys == Provided(SetOf(specs))
    ensures r.Ok? ==> forall c :: c in r.value ==> Wins(Offers(specs, c), r.value[c])
    ensures r.Err? ==> TiedAtTop(Offers(specs, r.error))
  {
    var grouped := Group(specs);
    var providers: map<Name, Spec> := map[];
    var todo := grouped.Keys;
    while todo != {}
      invariant providers.Keys == grouped.Keys - todo && todo <= grouped.Keys
      invariant forall c :: c in providers ==> Wins(Offers(specs, c), providers[c])
      decreases todo
    {
      var capability :| capability in todo;
      todo := todo - {capability};
      var candidates := grouped[capability];
      if |candidates| == 1 {
        assert Wins(candidates, candidates[0]);
        providers := providers[capability := candidates[0]];
        continue;
      }
      TopTwoDecide(candidates);
      var ordered := Rank(candidates);
      if ordered[0].priority == ordered[1].priority {
        return Err(capability);
      }
      providers := providers[capability := ordered[0]];
    }
    return Ok(providers);
  }

  // ---------------------------------------------------------------- validation

  predicate IsActive(spec: Spec, providers: map<Name, Spec>) {
    || spec.offered == [] || spec.contributes != [] || spec.extended
    || exists c :: c in spec.offered && c in providers && providers[c].id == spec.id
  }

  /** The winner for some capability stays active. */
  lemma ProvidersAreActive(specs: seq<Spec>, providers: map<Name, Spec>, capability: Name)
    requires capability in providers && Wins(Offers(specs, capability), providers[capability])
    ensures providers[capability] in specs && IsActive(providers[capability], providers)
  {
    WinnerOutranks(specs, capability, providers[capability]);
  }

  ghost predicate BadRequires(specs: seq<Spec>, providers: map<Name, Spec>, e: ResolveError) {
    match e
    case SelfDependency(id) => exists s :: s in specs && s.id == id && id in s.depends
    case MissingNamespace(id, name) => exists s :: s in specs && s.id == id && name in s.depends && !HasId(specs, name)
    case MissingProvider(id, capability) =>
      capability !in providers && exists s :: s in specs && s.id == id && capability in s.requirements
    case _ => false
  }

  method ValidateRequires(specs: seq<Spec>, providers: map<Name, Spec>) returns (r: Result<(), ResolveError>)
    ensures r.Ok? <==> forall s :: s in specs ==>
                         && s.id !in s.depends
                         && (forall d :: d in s.depends ==> d in IdsOf(SetOf(specs)))
                         && (forall q :: q in s.requirements ==> q in providers)
    ensures r.Err? ==> BadRequires(specs, providers, r.error)
  {
    var available := IdsOf(SetOf(specs));
    for i := 0 to |specs|
      invariant forall s :: s in specs[..i] ==>
                  && s.id !in s.depends
                  && (forall d :: d in s.depends ==> d in available)
                  && (forall q :: q in s.requirements ==> q in providers)
    {
      var s := specs[i];
      assert specs[..i + 1] == specs[..i] + [s];
      if s.id in s.depends {
        return Err(SelfDependency(s.id));
      }
      var missing := (set d | d in s.depends) - available;
      if missing != {} {
        var name :| name in missing;
        assert forall t :: t in specs ==> t in SetOf(specs) && t.id in available;
        return Err(MissingNamespace(s.id, name));
      }
      forall d | d in s.depends ensures d in available { assert d !in missing; }
      for k := 0 to |s.requirements|
        invariant forall q :: q in s.requirements[..k] ==> q in providers
      {
        assert s.requirements[..k + 1] == s.requirements[..k] + [s.requirements[k]];
        if s.requirements[k] !in providers {
          return Err(MissingProvider(s.id, s.requirements[k]));
        }
      }
      assert s.requirements[..|s.requirements|] == s.requirements;
    }
    assert specs[..|specs|] == specs;
    return Ok(());
  }

  function Declarers(owners: seq<Spec>, key: Name): nat {
    if owners == [] then 0
    else Declarers(owners[..|owners| - 1], key) + Occurrences(owners[|owners| - 1].declares, key)
  }

  function Occurrences(names: seq<Name>, key: Name): nat {
    multiset(names)[key]
  }

  ghost predicate BadDeclaration(specs: seq<Spec>, owners: seq<Spec>, e: ResolveError) {
    match e
    case Undeclared(key) =>
      Declarers(owners, key) == 0 && exists s :: s in specs && (key in s.contributes || key in s.consumes)
    case DeclaredTwice(key) => Declarers(owners, key) > 1
    case _ => false
  }

  /** Every contribution point in use is declared, and none is declared twice. */
  ghost predicate Declared(active: seq<Spec>, owners: seq<Spec>) {
    && (forall s, k :: s in active && (k in s.contributes || k in s.consumes) ==> Declarers(owners, k) > 0)
    && (forall k :: Declarers(owners, k) <= 1)
  }

  method ValidateDeclarations(specs: seq<Spec>, owners: seq<Spec>) returns (r: Result<(), ResolveError>)
    ensures r.Ok? <==> Declared(specs, owners)
    ensures r.Err? ==> BadDeclaration(specs, owners, r.error)
  {
    var referenced := set s, k | s in SetOf(specs) && k in s.contributes + s.consumes :: k;
    var declared: map<Name, nat> := map[];
    for i := 0 to |owners|
      invariant forall k :: (if k in declared then declared[k] else 0) == Declarers(owners[..i], k)
      invariant forall k :: k in declared ==> declared[k] > 0
    {
      assert owners[..i + 1][..i] == owners[..i];
      var names := owners[i].declares;
      for n := 0 to |names|
        invariant forall k :: (if k in declared then declared[k] else 0) ==
                              Declarers(owners[..i], k) + Occurrences(names[..n], k)
        invariant forall k :: k in declared ==> declared[k] > 0
      {
        assert names[..n + 1] == names[..n] + [names[n]];
        declared := declared[names[n] := (if names[n] in declared then declared[names[n]] else 0) + 1];
      }
      assert names[..|names|] == names;
    }
    assert owners[..|owners|] == owners;
    var missing := referenced - declared.Keys;
    if missing != {} {
      var key :| key in missing;
      var s :| s in SetOf(specs) && key in s.contributes + s.consumes;
      return Err(Undeclared(key));
    }
    var duplicated := set k | k in declared && declared[k] > 1;
    if duplicated != {} {
      var key :| key in duplicated;
      return Err(DeclaredTwice(key));
    }
    forall s, k | s in specs && (k in s.contributes || k in s.consumes) ensures Declarers(owners, k) > 0 {
      assert s in SetOf(specs) && k in s.contributes + s.consumes;
      assert k in referenced && k !in missing;
    }
    forall k ensures Declarers(owners, k) <= 1 { assert k !in duplicated; }
    return Ok(());
  }

  predicate Timely(ordering: Ordering): (timely: bool)
    ensures !timely <==> ordering.afterPhase.Some? && ordering.afterPhase.value.order > ordering.phase.order
  {
    var target := if ordering.afterPhase.Some? then ordering.afterPhase.value else ordering.phase;
    target.order <= ordering.phase.order
  }

  ghost predicate BadOrdering(specs: seq<Spec>, e: ResolveError) {
    e.LateOrdering? && exists s, o :: s in specs && s.id == e.id && o in s.order && !Timely(o)
  }

  method ValidateOrderings(specs: seq<Spec>) returns (r: Result<(), ResolveError>)
    ensures r.Ok? <==> forall s, o :: s in specs && o in s.order ==> Timely(o)
    ensures r.Err? ==> BadOrdering(specs, r.error)
  {
    for i := 0 to |specs|
      invariant forall s, o :: s in specs[..i] && o in s.order ==> Timely(o)
    {
      var s := specs[i];
      assert specs[..i + 1] == specs[..i] + [s];
      for k := 0 to |s.order|
        invariant forall o :: o in s.order[..k] ==> Timely(o)
      {
        assert s.order[..k + 1] == s.order[..k] + [s.order[k]];
        if !Timely(s.order[k]) {
          return Err(LateOrdering(s.id));
        }
      }
      assert s.order[..|s.order|] == s.order;
    }
    assert specs[..|specs|] == specs;
    return Ok(());
  }

  // ---------------------------------------------------------------- orders over specs

  predicate HasId(specs: seq<Spec>, id: Name) {
    exists s :: s in specs && s.id == id
  }

  function ById(specs: seq<Spec>, id: Name): (s: Spec)
    requires HasId(specs, id)
    ensures s in specs && s.id == id
  {
    if specs[0].id == id then specs[0] else ById(specs[1..], id)
  }

  /** `edge(a, b)`: a has to come before b, if they are different modules. */
  ghost predicate Fed(order: seq<Spec>, edge: (Spec, Spec) -> bool) {
    forall i, j :: 0 <= i < |order| && 0 <= j < |order| && i != j && edge(order[i], order[j]) ==> i < j
  }

  /** All of the modules, once each, with every edge kept. */
  ghost predicate Arrangement(specs: seq<Spec>, edge: (Spec, Spec) -> bool, order: seq<Spec>) {
    SetOf(order) == SetOf(specs) && UniqueIds(order) && Fed(order, edge)
  }

  /** At the first place where the two differ, `a` has the module that was listed earlier. */
  ghost predicate Sooner(specs: seq<Spec>, a: seq<Spec>, b: seq<Spec>) {
    exists k, i, j :: 0 <= k < |a| && k < |b| && a[..k] == b[..k] && 0 <= i < j < |specs| && specs[i] == a[k] && specs[j] == b[k]
  }

  ghost predicate FirstArrangement(specs: seq<Spec>, edge: (Spec, Spec) -> bool, order: seq<Spec>) {
    && Arrangement(specs, edge, order)
    && forall other :: Arrangement(specs, edge, other) ==> other == order || Sooner(specs, order, other)
  }

  /** Each next module has an edge to the one before it, from another module. */
  ghost predicate Chain(specs: seq<Spec>, edge: (Spec, Spec) -> bool, path: seq<Spec>) {
    && (forall i :: 0 <= i < |path| ==> path[i] in specs)
    && (forall i :: 0 <= i < |path| - 1 ==> path[i + 1] != path[i] && edge(path[i + 1], path[i]))
  }

  ghost predicate ComesBack(path: seq<Spec>) {
    exists i, j :: 0 <= i < j < |path| && path[i] == path[j]
  }

  /** Going back along edges from a module one can come back to a module already passed. */
  ghost predicate Circular(specs: seq<Spec>, edge: (Spec, Spec) -> bool, s: Spec) {
    exists path :: Chain(specs, edge, path) && path != [] && path[0] == s && ComesBack(path)
  }

  /** There are circles, and these are exactly the names of the modules that lead into one. */
  ghost predicate NamesCircles(specs: seq<Spec>, edge: (Spec, Spec) -> bool, names: set<Name>) {
    names != {} && forall id :: id in names <==> exists s :: s in specs && s.id == id && Circular(specs, edge, s)
  }

  /** Going back along edges means going back in the arrangement. */
  lemma {:induction false} ChainFalls(specs: seq<Spec>, edge: (Spec, Spec) -> bool, order: seq<Spec>, path: seq<Spec>, i: nat, j: nat)
    returns (a: nat, b: nat)
    requires Arrangement(specs, edge, order) && Chain(specs, edge, path) && i < j < |path|
    ensures a < |order| && b < |order| && order[a] == path[i] && order[b] == path[j] && b < a
    decreases j
  {
    assert path[i] in SetOf(specs) && path[j] in SetOf(specs) && path[j - 1] in SetOf(specs);
    b :| 0 <= b < |order| && order[b] == path[j];
    if i == j - 1 {
      a :| 0 <= a < |order| && order[a] == path[i];
      assert path[i + 1] == path[j];
    } else {
      var c;
      a, c := ChainFalls(specs, edge, order, path, i, j - 1);
      assert path[j - 1 + 1] == path[j] && order[c] == path[j - 1];
      assert b < c;
    }
  }

  /** What can be arranged has no circles. */
  lemma ArrangedNotCircular(specs: seq<Spec>, edge: (Spec, Spec) -> bool, order: seq<Spec>, s: Spec)
    requires Arrangement(specs, edge, order)
    ensures !Circular(specs, edge, s)
  {
    hide Arrangement, Chain;
    if Circular(specs, edge, s) {
      var path :| Chain(specs, edge, path) && path != [] && path[0] == s && ComesBack(path);
      var i, j :| 0 <= i < j < |path| && path[i] == path[j];
      var a, b := ChainFalls(specs, edge, order, path, i, j);
      OncePlaced(specs, edge, order, a, b);
    }
  }

  lemma NotCircles(specs: seq<Spec>, edge: (Spec, Spec) -> bool, order: seq<Spec>, names: set<Name>)
    requires Arrangement(specs, edge, order)
    ensures !NamesCircles(specs, edge, names)
  {
    hide Arrangement, Circular;
    if NamesCircles(specs, edge, names) {
      var id :| id in names;
      var s :| s in specs && s.id == id && Circular(specs, edge, s);
      ArrangedNotCircular(specs, edge, order, s);
    }
  }

  lemma OncePlaced(specs: seq<Spec>, edge: (Spec, Spec) -> bool, order: seq<Spec>, a: nat, b: nat)
    requires Arrangement(specs, edge, order) && b < a < |order|
    ensures order[a] != order[b]
  {}

  // ---------------------------------------------------------------- names stand for modules

  /** Among the modules, the dependencies by name are exactly the edges. */
  ghost predicate Compiles(specs: seq<Spec>, dependencies: map<Name, set<Name>>, edge: (Spec, Spec) -> bool) {
    && (forall s :: s in specs ==> s.id in dependencies)
    && (forall a, b :: a in specs && b in specs ==> (a.id in dependencies[b.id] <==> edge(a, b)))
  }

  lemma NamesOf(specs: seq<Spec>)
    ensures forall s :: s in specs ==> s.id in Names(specs)
    ensures forall x :: x in Names(specs) ==> HasId(specs, x)
  {
    var names := Names(specs);
    forall x | x in names ensures HasId(specs, x) {
      var i :| 0 <= i < |names| && names[i] == x;
      assert specs[i] in specs;
    }
    forall s | s in specs ensures s.id in names {
      var i :| 0 <= i < |specs| && specs[i] == s;
      assert names[i] == s.id;
    }
  }

  lemma NamesCovered(specs: seq<Spec>, dependencies: map<Name, set<Name>>, edge: (Spec, Spec) -> bool)
    requires UniqueIds(specs) && Compiles(specs, dependencies, edge)
    ensures Covers(Names(specs), dependencies)
    ensures forall s :: s in specs ==> s.id in Names(specs) && s.id in dependencies
    ensures forall x :: x in Names(specs) ==> HasId(specs, x)
  {
    NamesOf(specs);
  }

  lemma NeedsEdge(specs: seq<Spec>, dependencies: map<Name, set<Name>>, edge: (Spec, Spec) -> bool, a: Spec, b: Spec)
    requires UniqueIds(specs) && Compiles(specs, dependencies, edge) && a in specs && b in specs
    ensures a.id in Needs(Names(specs), dependencies, b.id) <==> a != b && edge(a, b)
  {
    hide UniqueIds;
    NamesCovered(specs, dependencies, edge);
    if a.id == b.id {
      SameId(specs, a, b);
    }
  }

  lemma OrderArranged(specs: seq<Spec>, dependencies: map<Name, set<Name>>, edge: (Spec, Spec) -> bool, order: seq<Spec>)
    requires UniqueIds(specs) && Compiles(specs, dependencies, edge) && SetOf(order) == SetOf(specs) && UniqueIds(order)
    requires Covers(Names(specs), dependencies) && IsOrder(Names(specs), dependencies, Names(order))
    ensures Fed(order, edge)
  {
    hide Needs, Compiles;
    var names := Names(order);
    forall i, j | 0 <= i < |order| && 0 <= j < |order| && i != j && edge(order[i], order[j]) ensures i < j {
      assert order[i] in SetOf(order) && order[j] in SetOf(order);
      NeedsEdge(specs, dependencies, edge, order[i], order[j]);
      assert order[i].id != order[j].id;
      assert names[i] in Needs(Names(specs), dependencies, names[j]);
      assert names[i] in Elements(names[..j]);
      var k :| 0 <= k < j && names[k] == names[i];
      assert k == i;
    }
  }

  lemma ArrangedOrder(specs: seq<Spec>, dependencies: map<Name, set<Name>>, edge: (Spec, Spec) -> bool, order: seq<Spec>)
    requires UniqueIds(specs) && Compiles(specs, dependencies, edge) && Arrangement(specs, edge, order)
    requires Covers(Names(specs), dependencies)
    ensures IsOrder(Names(specs), dependencies, Names(order))
  {
    hide Needs, Compiles;
    var all, names := Names(specs), Names(order);
    NamesOf(specs);
    NamesOf(order);
    forall x ensures x in all <==> x in names {
      if x in all {
        assert HasId(specs, x);
        var s :| s in specs && s.id == x;
        assert s in SetOf(specs) && s in order;
      }
      if x in names {
        assert HasId(order, x);
        var s :| s in order && s.id == x;
        assert s in SetOf(order) && s in specs;
      }
    }
    forall i | 0 <= i < |names| ensures Needs(all, dependencies, names[i]) <= Elements(names[..i]) {
      EarlierFed(specs, dependencies, edge, order, i);
    }
    assert Elements(names) == Elements(all);
  }

  lemma EarlierFed(specs: seq<Spec>, dependencies: map<Name, set<Name>>, edge: (Spec, Spec) -> bool, order: seq<Spec>, i: nat)
    requires UniqueIds(specs) && Compiles(specs, dependencies, edge) && Arrangement(specs, edge, order) && i < |order|
    requires Names(order)[i] in dependencies
    ensures Needs(Names(specs), dependencies, Names(order)[i]) <= Elements(Names(order)[..i])
  {
    hide Compiles;
    var names := Names(order);
    assert order[i] in SetOf(order);
    NamesCovered(specs, dependencies, edge);
    forall x | x in Needs(Names(specs), dependencies, names[i]) ensures x in Elements(names[..i]) {
      assert HasId(specs, x);
      var s :| s in specs && s.id == x;
      NeedsEdge(specs, dependencies, edge, s, order[i]);
      assert s in SetOf(specs);
      var j :| 0 <= j < |order| && order[j] == s;
      assert names[..i][j] == x;
    }
  }

  lemma SameBefore(specs: seq<Spec>, a: seq<Spec>, b: seq<Spec>, k: nat)
    requires UniqueIds(specs) && SetOf(a) == SetOf(specs) == SetOf(b) && k <= |a| && k <= |b| && Names(a)[..k] == Names(b)[..k]
    ensures a[..k] == b[..k]
  {
    hide UniqueIds;
    forall m | 0 <= m < k ensures a[m] == b[m] {
      assert Names(a)[..k][m] == Names(b)[..k][m];
      assert a[m] in SetOf(a) && b[m] in SetOf(b);
      SameId(specs, a[m], b[m]);
    }
  }

  lemma SoonerByName(specs: seq<Spec>, a: seq<Spec>, b: seq<Spec>)
    requires UniqueIds(specs) && SetOf(a) == SetOf(specs) == SetOf(b) && Precedes(Names(specs), Names(a), Names(b))
    ensures Sooner(specs, a, b)
  {
    hide UniqueIds;
    var names, x, y := Names(specs), Names(a), Names(b);
    var k :| 0 <= k < |x| && k < |y| && x[..k] == y[..k] && x[k] in names && y[k] in names && Position(names, x[k]) < Position(names, y[k]);
    SameBefore(specs, a, b, k);
    var i, j := Position(names, x[k]), Position(names, y[k]);
    assert a[k] in SetOf(a) && b[k] in SetOf(b) && specs[i] in specs && specs[j] in specs;
    SameId(specs, a[k], specs[i]);
    SameId(specs, b[k], specs[j]);
  }

  lemma SameNames(specs: seq<Spec>, a: seq<Spec>, b: seq<Spec>)
    requires UniqueIds(specs) && SetOf(a) == SetOf(specs) == SetOf(b) && Names(a) == Names(b)
    ensures a == b
  {
    forall m | 0 <= m < |a| ensures a[m] == b[m] {
      assert Names(a)[m] == Names(b)[m];
      assert a[m] in SetOf(a) && b[m] in SetOf(b);
      SameId(specs, a[m], b[m]);
    }
    assert |Names(a)| == |Names(b)|;
  }

  lemma FirstByNames(specs: seq<Spec>, dependencies: map<Name, set<Name>>, edge: (Spec, Spec) -> bool, order: seq<Spec>)
    requires UniqueIds(specs) && Compiles(specs, dependencies, edge) && Covers(Names(specs), dependencies)
    requires SetOf(order) == SetOf(specs) && UniqueIds(order) && LeastOrder(Names(specs), dependencies, Names(order))
    ensures FirstArrangement(specs, edge, order)
  {
    hide Compiles, Covers, IsOrder, Precedes, Names, Fed, UniqueIds, Sooner;
    OrderArranged(specs, dependencies, edge, order);
    forall other | Arrangement(specs, edge, other) ensures other == order || Sooner(specs, order, other) {
      ArrangedOrder(specs, dependencies, edge, other);
      if Names(other) == Names(order) {
        SameNames(specs, other, order);
      } else {
        SoonerByName(specs, order, other);
      }
    }
  }

  /** A walk over names is a chain of modules. */
  lemma WalkIsChain(specs: seq<Spec>, dependencies: map<Name, set<Name>>, edge: (Spec, Spec) -> bool, s: Spec)
    requires UniqueIds(specs) && Compiles(specs, dependencies, edge) && Covers(Names(specs), dependencies) && s in specs
    ensures ReachesCycle(Names(specs), dependencies, s.id) <==> Circular(specs, edge, s)
  {
    hide Compiles, Covers, Needs, UniqueIds;
    var names := Names(specs);
    NamesCovered(specs, dependencies, edge);
    if ReachesCycle(names, dependencies, s.id) {
      var walk :| Walk(names, dependencies, walk) && walk != [] && walk[0] == s.id && Repeats(walk);
      ChainOfWalk(specs, dependencies, edge, s, walk);
    }
    if Circular(specs, edge, s) {
      var path :| Chain(specs, edge, path) && path != [] && path[0] == s && ComesBack(path);
      WalkOfChain(specs, dependencies, edge, s, path);
    }
  }

  lemma ChainOfWalk(specs: seq<Spec>, dependencies: map<Name, set<Name>>, edge: (Spec, Spec) -> bool, s: Spec, walk: seq<Name>)
    requires UniqueIds(specs) && Compiles(specs, dependencies, edge) && Covers(Names(specs), dependencies) && s in specs
    requires Walk(Names(specs), dependencies, walk) && walk != [] && walk[0] == s.id && Repeats(walk)
    ensures Circular(specs, edge, s)
  {
    hide Compiles, Covers, Needs, UniqueIds;
    NamesCovered(specs, dependencies, edge);
    assert forall i :: 0 <= i < |walk| ==> walk[i] in Names(specs);
    var path := seq(|walk|, i requires 0 <= i < |walk| => ById(specs, walk[i]));
    forall i | 0 <= i < |path| - 1 ensures path[i + 1] != path[i] && edge(path[i + 1], path[i]) {
      assert walk[i + 1] in Needs(Names(specs), dependencies, walk[i]);
      NeedsEdge(specs, dependencies, edge, path[i + 1], path[i]);
    }
    SameId(specs, s, path[0]);
    var i, j :| 0 <= i < j < |walk| && walk[i] == walk[j];
    assert path[i] == path[j];
    assert Chain(specs, edge, path) && ComesBack(path);
  }

  lemma WalkOfChain(specs: seq<Spec>, dependencies: map<Name, set<Name>>, edge: (Spec, Spec) -> bool, s: Spec, path: seq<Spec>)
    requires UniqueIds(specs) && Compiles(specs, dependencies, edge) && Covers(Names(specs), dependencies)
    requires Chain(specs, edge, path) && path != [] && path[0] == s && ComesBack(path)
    ensures ReachesCycle(Names(specs), dependencies, s.id)
  {
    hide Compiles, Covers, Needs, UniqueIds;
    NamesCovered(specs, dependencies, edge);
    var walk := Names(path);
    forall i | 0 <= i < |walk| ensures walk[i] in Names(specs) {
      assert path[i] in specs;
    }
    forall i | 0 <= i < |walk| - 1 ensures walk[i] in dependencies && walk[i + 1] in Needs(Names(specs), dependencies, walk[i]) {
      assert path[i + 1] in specs && path[i] in specs;
      NeedsEdge(specs, dependencies, edge, path[i + 1], path[i]);
    }
    var i, j :| 0 <= i < j < |path| && path[i] == path[j];
    assert walk[i] == walk[j];
    assert Walk(Names(specs), dependencies, walk) && Repeats(walk);
  }

  lemma CirclesByNames(specs: seq<Spec>, dependencies: map<Name, set<Name>>, edge: (Spec, Spec) -> bool, names: set<Name>)
    requires UniqueIds(specs) && Compiles(specs, dependencies, edge) && Covers(Names(specs), dependencies)
    requires OnCycles(Names(specs), dependencies, names)
    ensures NamesCircles(specs, edge, names)
  {
    hide Compiles, Covers, UniqueIds, ReachesCycle, Circular;
    NamesCovered(specs, dependencies, edge);
    forall id ensures id in names <==> exists s :: s in specs && s.id == id && Circular(specs, edge, s) {
      if id in names {
        assert HasId(specs, id);
        var s :| s in specs && s.id == id;
        WalkIsChain(specs, dependencies, edge, s);
      }
      if s :| s in specs && s.id == id && Circular(specs, edge, s) {
        WalkIsChain(specs, dependencies, edge, s);
      }
    }
  }

  /** `_topological` on specs: the sort works on their names, its positions are theirs. */
  method SortSpecs(specs: seq<Spec>, dependencies: map<Name, set<Name>>, ghost edge: (Spec, Spec) -> bool)
    returns (r: Result<seq<Spec>, set<Name>>)
    requires UniqueIds(specs) && Compiles(specs, dependencies, edge)
    ensures r.Ok? ==> SetOf(r.value) == SetOf(specs) && UniqueIds(r.value) && FirstArrangement(specs, edge, r.value)
    ensures r.Err? ==> NamesCircles(specs, edge, r.error)
  {
    hide Compiles, LeastOrder, OnCycles, FirstArrangement, NamesCircles;
    NamesCovered(specs, dependencies, edge);
    r := SortNamed(specs, dependencies);
    if r.Ok? {
      FirstByNames(specs, dependencies, edge, r.value);
    } else {
      CirclesByNames(specs, dependencies, edge, r.error);
    }
  }

  method SortNamed(specs: seq<Spec>, dependencies: map<Name, set<Name>>) returns (r: Result<seq<Spec>, set<Name>>)
    requires UniqueIds(specs) && Covers(Names(specs), dependencies)
    ensures r.Ok? ==> SetOf(r.value) == SetOf(specs) && UniqueIds(r.value)
    ensures r.Ok? ==> LeastOrder(Names(specs), dependencies, Names(r.value))
    ensures r.Err? ==> OnCycles(Names(specs), dependencies, r.error)
  {
    hide ReachesCycle, Precedes;
    var names := Names(specs);
    var sorted := Sort(names, dependencies);
    if sorted.Err? {
      return Err(sorted.error);
    }
    var order := sorted.value;
    forall x | x in order ensures HasId(specs, x) {
      var i :| 0 <= i < |names| && names[i] == x;
      assert specs[i] in specs;
    }
    var result := seq(|order|, i requires 0 <= i < |order| => ById(specs, order[i]));
    assert Names(result) == order;
    forall s ensures s in result <==> s in specs {
      if s in specs {
        var i :| 0 <= i < |specs| && specs[i] == s;
        assert names[i] in Elements(order);
        var j :| 0 <= j < |order| && order[j] == s.id;
        SameId(specs, s, result[j]);
      }
    }
    return Ok(result);
  }

  /** `sorted(..., key=id)`. */
  function InsertById(specs: seq<Spec>, spec: Spec): seq<Spec> {
    if specs == [] || spec.id <= specs[0].id then [spec] + specs
    else [specs[0]] + InsertById(specs[1..], spec)
  }

  function SortedById(specs: seq<Spec>): seq<Spec> {
    if specs == [] then [] else InsertById(SortedById(specs[1..]), specs[0])
  }

  ghost predicate Ascending(specs: seq<Spec>) {
    forall i, j :: 0 <= i < j < |specs| ==> specs[i].id < specs[j].id
  }

  lemma {:induction false} InsertSet(specs: seq<Spec>, spec: Spec)
    ensures SetOf(InsertById(specs, spec)) == SetOf(specs) + {spec}
  {
    if specs != [] && spec.id > specs[0].id {
      InsertSet(specs[1..], spec);
      assert specs == [specs[0]] + specs[1..];
      SetOfCons(specs[0], InsertById(specs[1..], spec));
      SetOfCons(specs[0], specs[1..]);
    } else {
      SetOfCons(spec, specs);
    }
  }

  lemma SetOfCons(first: Spec, rest: seq<Spec>)
    ensures SetOf([first] + rest) == {first} + SetOf(rest)
  {}

  lemma AscendingCons(first: Spec, rest: seq<Spec>)
    requires Ascending(rest) && forall s :: s in rest ==> first.id < s.id
    ensures Ascending([first] + rest)
  {}

  lemma {:induction false} InsertAscending(specs: seq<Spec>, spec: Spec)
    requires Ascending(specs) && forall s :: s in specs ==> s.id != spec.id
    ensures Ascending(InsertById(specs, spec)) && SetOf(InsertById(specs, spec)) == SetOf(specs) + {spec}
  {
    hide SetOf;
    InsertSet(specs, spec);
    if specs != [] && spec.id > specs[0].id {
      InsertAscending(specs[1..], spec);
      InsertMembers(specs[1..], spec);
      AscendingCons(specs[0], InsertById(specs[1..], spec));
    } else {
      forall s | s in specs ensures spec.id < s.id {
        var j :| 0 <= j < |specs| && specs[j] == s;
        assert specs[0] in specs;
      }
      AscendingCons(spec, specs);
    }
  }

  lemma {:induction false} InsertMembers(specs: seq<Spec>, spec: Spec)
    ensures forall s :: s in InsertById(specs, spec) <==> s in specs || s == spec
  {
    InsertSet(specs, spec);
    forall s ensures s in InsertById(specs, spec) <==> s in specs || s == spec {
      assert s in SetOf(InsertById(specs, spec)) <==> s in SetOf(specs) || s == spec;
    }
  }

  lemma {:induction false} SortedAscending(specs: seq<Spec>)
    requires UniqueIds(specs)
    ensures Ascending(SortedById(specs)) && SetOf(SortedById(specs)) == SetOf(specs)
  {
    if specs != [] {
      SortedAscending(specs[1..]);
      forall s | s in SortedById(specs[1..]) ensures s.id != specs[0].id {
        assert s in SetOf(specs[1..]);
        var i :| 0 <= i < |specs[1..]| && specs[1..][i] == s;
        assert specs[i + 1] == s;
      }
      InsertAscending(SortedById(specs[1..]), specs[0]);
      assert specs == [specs[0]] + specs[1..];
    }
  }

  // ---------------------------------------------------------------- the construction order

  /** `source` has to be constructed before `consumer`. */
  predicate Feeds(source: Spec, consumer: Spec, providers: map<Name, Spec>) {
    || source.id in consumer.depends
    || (exists q :: q in consumer.requirements && q in providers && providers[q].id == source.id)
    || (exists k :: k in consumer.consumes && k in source.contributes)
  }

  function ConstructionDependencies(specs: seq<Spec>, providers: map<Name, Spec>): map<Name, set<Name>>
    requires UniqueIds(specs)
  {
    map id | id in IdsOf(SetOf(specs)) ::
      IdHasSpec(specs, id);
      var s := ById(specs, id);
      (set d | d in s.depends)
      + (set q | q in s.requirements && q in providers :: providers[q].id)
      + (set k, c | k in s.consumes && c in SetOf(specs) && k in c.contributes :: c.id)
  }

  lemma IdHasSpec(specs: seq<Spec>, id: Name)
    requires id in IdsOf(SetOf(specs))
    ensures HasId(specs, id)
  {
    var s :| s in SetOf(specs) && s.id == id;
  }

  function Feeding(providers: map<Name, Spec>): (Spec, Spec) -> bool {
    (source: Spec, consumer: Spec) => Feeds(source, consumer, providers)
  }

  /** Among the active modules, the compiled dependencies are exactly what feeds. */
  lemma DependenciesAreFeeds(specs: seq<Spec>, providers: map<Name, Spec>, source: Spec, consumer: Spec)
    requires UniqueIds(specs) && source in specs && consumer in specs
    ensures consumer.id in ConstructionDependencies(specs, providers)
    ensures source.id in ConstructionDependencies(specs, providers)[consumer.id] <==> Feeds(source, consumer, providers)
  {
    assert consumer in SetOf(specs) && source in SetOf(specs);
    IdHasSpec(specs, consumer.id);
    SameId(specs, consumer, ById(specs, consumer.id));
    if k, c :| k in consumer.consumes && c in SetOf(specs) && k in c.contributes && c.id == source.id {
      SameId(specs, c, source);
    }
  }

  /** Every module that feeds a different one precedes it. */
  ghost predicate FedInOrder(construction: seq<Spec>, providers: map<Name, Spec>) {
    forall i, j :: 0 <= i < |construction| && 0 <= j < |construction| && i != j ==>
      Feeds(construction[i], construction[j], providers) ==> i < j
  }

  lemma OrderFeeds(construction: seq<Spec>, providers: map<Name, Spec>)
    ensures Fed(construction, Feeding(providers)) <==> FedInOrder(construction, providers)
  {
    hide Feeds;
  }

  /** At the first place where the two differ, `a` has the lesser name. */
  ghost predicate NamedSooner(a: seq<Spec>, b: seq<Spec>) {
    exists k :: 0 <= k < |a| && k < |b| && a[..k] == b[..k] && a[k].id < b[k].id
  }

  /** Of all orders of the active modules that construct every feeding module first, the one that comes
      first by name. */
  ghost predicate FirstByName(active: seq<Spec>, providers: map<Name, Spec>, construction: seq<Spec>) {
    && Arrangement(active, Feeding(providers), construction)
    && forall other :: Arrangement(active, Feeding(providers), other) ==> other == construction || NamedSooner(construction, other)
  }

  lemma FirstIsByName(active: seq<Spec>, sorted: seq<Spec>, providers: map<Name, Spec>, construction: seq<Spec>)
    requires SetOf(sorted) == SetOf(active) && Ascending(sorted) && FirstArrangement(sorted, Feeding(providers), construction)
    ensures FirstByName(active, providers, construction)
  {
    hide Feeding, Fed;
    forall other | Arrangement(active, Feeding(providers), other) ensures other == construction || NamedSooner(construction, other) {
      assert Arrangement(sorted, Feeding(providers), other);
    }
  }

  lemma CirclesSorted(active: seq<Spec>, sorted: seq<Spec>, providers: map<Name, Spec>, names: set<Name>)
    requires SetOf(sorted) == SetOf(active) && NamesCircles(sorted, Feeding(providers), names)
    ensures NamesCircles(active, Feeding(providers), names)
  {
    hide Feeding, ComesBack;
    assert forall s :: s in sorted <==> s in SetOf(sorted);
    assert forall s :: s in active <==> s in SetOf(active);
    forall s ensures Circular(sorted, Feeding(providers), s) <==> Circular(active, Feeding(providers), s) {
      if Circular(sorted, Feeding(providers), s) {
        var path :| Chain(sorted, Feeding(providers), path) && path != [] && path[0] == s && ComesBack(path);
        assert Chain(active, Feeding(providers), path);
      }
      if Circular(active, Feeding(providers), s) {
        var path :| Chain(active, Feeding(providers), path) && path != [] && path[0] == s && ComesBack(path);
        assert Chain(sorted, Feeding(providers), path);
      }
    }
  }

  /** What a successful resolution promises. */
  ghost predicate Resolved(listed: seq<Spec>, r: Resolution) {
    && GreatestStable(listed, SetOf(r.modules)) && r.modules == Keep(listed, SetOf(r.modules))
    && r.providers.Keys == Provided(SetOf(r.modules))
    && (forall c :: c in r.providers ==> Wins(Offers(r.modules, c), r.providers[c]))
    && UniqueIds(r.construction)
    && (forall s :: s in r.construction <==> s in r.modules && IsActive(s, r.providers))
    && (forall s :: s in r.construction ==> s.id !in s.depends)
    && (forall s, d :: s in r.construction && d in s.depends ==> HasId(r.construction, d))
    && (forall s, q :: s in r.construction && q in s.requirements ==> q in r.providers && r.providers[q] in r.construction)
    && Declared(r.construction, r.modules)
    && (forall s, o :: s in r.construction && o in s.order ==> Timely(o))
    && FedInOrder(r.construction, r.providers)
    && FirstByName(Keep(r.modules, SetOf(r.construction)), r.providers, r.construction)
  }

  /** The one choice of kept modules, providers and active modules that a listing admits. */
  ghost predicate Chosen(listed: seq<Spec>, modules: seq<Spec>, providers: map<Name, Spec>, active: seq<Spec>) {
    && GreatestStable(listed, SetOf(modules)) && modules == Keep(listed, SetOf(modules))
    && providers.Keys == Provided(SetOf(modules))
    && (forall c :: c in providers ==> Wins(Offers(modules, c), providers[c]))
    && active == Keep(modules, set s | s in modules && IsActive(s, providers))
  }

  /** Active modules feed each other in a circle; named are exactly those that lead into one. */
  ghost predicate BadOrder(active: seq<Spec>, providers: map<Name, Spec>, e: ResolveError) {
    e.Cycle? && NamesCircles(active, Feeding(providers), e.names)
  }

  /** Each error names what is wrong with the listing. */
  ghost predicate Unresolvable(listed: seq<Spec>, e: ResolveError) {
    match e
    case IncompatibleApi(id) => exists s :: s in listed && s.id == id && !s.accepted
    case DuplicateName(id) => exists i, j :: 0 <= i < j < |listed| && listed[i].id == listed[j].id == id
    case AmbiguousProvider(capability) =>
      exists kept :: GreatestStable(listed, kept) && TiedAtTop(Offers(Keep(listed, kept), capability))
    case _ =>
      exists modules, providers, active :: Chosen(listed, modules, providers, active) &&
        (BadRequires(active, providers, e) || BadDeclaration(active, modules, e) || BadOrdering(active, e) || BadOrder(active, providers, e))
  }

  /** No listing both resolves and has something wrong with it: the outcome says which of the two it is. */
  lemma ResolvedOrNot(listed: seq<Spec>, r: Resolution, e: ResolveError)
    requires UniqueIds(listed) && (forall s :: s in listed ==> s.accepted) && Resolved(listed, r)
    ensures !Unresolvable(listed, e)
  {
    hide Resolved, Chosen, GreatestStable, TiedAtTop, BadRequires, BadDeclaration, BadOrdering, BadOrder;
    if Unresolvable(listed, e) {
      match e {
        case IncompatibleApi(_) => {}
        case DuplicateName(_) => {}
        case AmbiguousProvider(capability) => {
          var kept :| GreatestStable(listed, kept) && TiedAtTop(Offers(Keep(listed, kept), capability));
          NotTied(listed, r, kept, capability);
        }
        case _ => {
          var modules, providers, active :| Chosen(listed, modules, providers, active) &&
            (BadRequires(active, providers, e) || BadDeclaration(active, modules, e) || BadOrdering(active, e) || BadOrder(active, providers, e));
          SameChoice(listed, r, modules, providers, active);
          NothingBad(listed, active, r, e);
        }
      }
    }
  }

  /** The choice behind a successful resolution is the only one. */
  lemma SameChoice(listed: seq<Spec>, r: Resolution, modules: seq<Spec>, providers: map<Name, Spec>, active: seq<Spec>)
    requires Resolved(listed, r) && Chosen(listed, modules, providers, active)
    ensures modules == r.modules && providers == r.providers && active == Keep(modules, SetOf(r.construction))
    ensures forall s :: s in active <==> s in r.construction
  {
    hide Wins, FedInOrder, IsActive, FirstByName, Stable, Declared, Timely, HasId, Keep, Provided;
    GreatestIsUnique(listed, SetOf(modules), SetOf(r.modules));
    WinnersUnique(modules, providers, r.providers);
    assert SetOf(r.construction) == set s | s in modules && IsActive(s, providers);
    KeepMembers(modules, SetOf(r.construction));
  }

  /** Of the kept modules exactly those are left out that only offer, and were selected for nothing they offer. */
  lemma LeftOut(listed: seq<Spec>, r: Resolution, s: Spec)
    requires Resolved(listed, r) && UniqueIds(listed) && s in r.modules
    ensures s !in r.construction <==>
              s.contributes == [] && !s.extended && s.offered != [] && forall c :: c in s.offered ==> c in r.providers && r.providers[c] != s
  {
    hide GreatestStable, FedInOrder, FirstByName, Declared, Timely, HasId;
    KeepMembers(listed, SetOf(r.modules));
    forall c | c in s.offered ensures c in r.providers && (r.providers[c] == s <==> r.providers[c].id == s.id) {
      assert s in SetOf(r.modules);
      WinnerOutranks(r.modules, c, r.providers[c]);
      if r.providers[c].id == s.id {
        SameId(listed, s, r.providers[c]);
      }
    }
  }

  lemma NotTied(listed: seq<Spec>, r: Resolution, kept: set<Spec>, capability: Name)
    requires Resolved(listed, r) && GreatestStable(listed, kept)
    ensures !TiedAtTop(Offers(Keep(listed, kept), capability))
  {
    hide FedInOrder, IsActive, FirstByName, Stable, Declared, Timely, HasId, Keep;
    GreatestIsUnique(listed, kept, SetOf(r.modules));
    var modules := r.modules;
    if TiedAtTop(Offers(modules, capability)) {
      OffersMembers(modules, capability);
      var offers := Offers(modules, capability);
      var i :| 0 <= i < |offers|;
      assert offers[i] in offers;
      assert offers[i] in SetOf(modules) && capability in offers[i].offered;
      WinnerOutranks(modules, capability, r.providers[capability]);
    }
  }

  lemma WinnersUnique(modules: seq<Spec>, a: map<Name, Spec>, b: map<Name, Spec>)
    requires a.Keys == b.Keys
    requires forall c :: c in a ==> Wins(Offers(modules, c), a[c])
    requires forall c :: c in b ==> Wins(Offers(modules, c), b[c])
    ensures a == b
  {
    forall c | c in a ensures a[c] == b[c] {
      WinnerOutranks(modules, c, a[c]);
      WinnerOutranks(modules, c, b[c]);
    }
  }

  lemma NothingBad(listed: seq<Spec>, active: seq<Spec>, r: Resolution, e: ResolveError)
    requires Resolved(listed, r) && active == Keep(r.modules, SetOf(r.construction))
    requires forall s :: s in active <==> s in r.construction
    ensures !BadRequires(active, r.providers, e) && !BadDeclaration(active, r.modules, e) && !BadOrdering(active, e)
    ensures !BadOrder(active, r.providers, e)
  {
    hide Declarers, Timely, UniqueIds, GreatestStable, Wins, FedInOrder, FirstByName, BadOrder, IsActive, Keep;
    assert forall id :: HasId(active, id) <==> HasId(r.construction, id);
    forall s | s in active
      ensures s.id !in s.depends
      ensures forall d :: d in s.depends ==> HasId(active, d)
    {
      assert s in r.construction;
    }
    assert Declared(active, r.modules);
    assert FirstByName(active, r.providers, r.construction);
    NotCyclic(active, r.providers, r.construction, e);
  }

  lemma NotCyclic(active: seq<Spec>, providers: map<Name, Spec>, construction: seq<Spec>, e: ResolveError)
    requires FirstByName(active, providers, construction)
    ensures !BadOrder(active, providers, e)
  {
    hide Feeding, Arrangement, NamesCircles;
    if BadOrder(active, providers, e) {
      NotCircles(active, Feeding(providers), construction, e.names);
    }
  }

  method ResolveModules(listed: seq<Spec>) returns (r: Result<Resolution, ResolveError>)
    ensures r.Ok? ==> Resolved(listed, r.value)
    ensures r.Ok? ==> UniqueIds(listed) && forall s :: s in listed ==> s.accepted
    ensures r.Err? ==> Unresolvable(listed, r.error)
  {
    hide Resolved, GreatestStable, Wins, FedInOrder, IsActive, FirstByName, TiedAtTop,
         BadRequires, BadDeclaration, BadOrdering, BadOrder, UniqueIds, Keep, HasId, Declarers, Timely;
    var checked := ValidateModuleApi(listed);
    if checked.Err? {
      return Err(checked.error);
    }
    checked := ValidateIdentities(listed);
    if checked.Err? {
      return Err(checked.error);
    }
    var available := DropUnsatisfiedOptional(listed);
    var chosen := Providers(available);
    if chosen.Err? {
      return Err(AmbiguousProvider(chosen.error));
    }
    var providers := chosen.value;
    var actives := set s | s in available && IsActive(s, providers);
    KeepMembers(available, actives);
    var active := Keep(available, actives);
    assert Chosen(listed, available, providers, active);
    var required := ValidateRequires(active, providers);
    if required.Err? {
      return Err(required.error);
    }
    var declared := ValidateDeclarations(active, available);
    if declared.Err? {
      return Err(declared.error);
    }
    var ordered := ValidateOrderings(active);
    if ordered.Err? {
      return Err(ordered.error);
    }
    var construction := Construct(active, providers);
    if construction.Err? {
      return Err(construction.error);
    }
    var resolution := Resolution(construction.value, providers, available);
    PromiseKept(listed, resolution, active);
    return Ok(resolution);
  }

  method ValidateModuleApi(specs: seq<Spec>) returns (r: Result<(), ResolveError>)
    ensures r.Ok? <==> forall s :: s in specs ==> s.accepted
    ensures r.Err? ==> r.error.IncompatibleApi? && exists s :: s in specs && s.id == r.error.id && !s.accepted
  {
    for i := 0 to |specs|
      invariant forall s :: s in specs[..i] ==> s.accepted
    {
      assert specs[..i + 1] == specs[..i] + [specs[i]];
      if !specs[i].accepted {
        return Err(IncompatibleApi(specs[i].id));
      }
    }
    assert specs[..|specs|] == specs;
    return Ok(());
  }

  method ValidateIdentities(specs: seq<Spec>) returns (r: Result<(), ResolveError>)
    ensures r.Ok? <==> UniqueIds(specs)
    ensures r.Err? ==> r.error.DuplicateName? &&
                       exists i, j :: 0 <= i < j < |specs| && specs[i].id == specs[j].id == r.error.id
  {
    var seen: set<Name> := {};
    for i := 0 to |specs|
      invariant forall id :: id in seen <==> exists j :: 0 <= j < i && specs[j].id == id
      invariant UniqueIds(specs[..i])
    {
      if specs[i].id in seen {
        var j :| 0 <= j < i && specs[j].id == specs[i].id;
        return Err(DuplicateName(specs[i].id));
      }
      seen := seen + {specs[i].id};
    }
    assert specs[..|specs|] == specs;
    return Ok(());
  }

  method Construct(active: seq<Spec>, providers: map<Name, Spec>) returns (r: Result<seq<Spec>, ResolveError>)
    requires UniqueIds(active)
    ensures r.Ok? ==> SetOf(r.value) == SetOf(active) && UniqueIds(r.value) && FedInOrder(r.value, providers)
    ensures r.Ok? ==> FirstByName(active, providers, r.value)
    ensures r.Err? ==> r.error.Cycle? && BadOrder(active, providers, r.error)
  {
    hide FedInOrder, FirstArrangement, FirstByName, NamesCircles, Compiles, ConstructionDependencies, Feeding, Ascending;
    SortedAscending(active);
    var sorted := SortedById(active);
    DependenciesCompiled(active, sorted, providers);
    var construction := SortSpecs(sorted, ConstructionDependencies(active, providers), Feeding(providers));
    if construction.Err? {
      CirclesSorted(active, sorted, providers, construction.error);
      return Err(Cycle(construction.error));
    }
    FirstIsByName(active, sorted, providers, construction.value);
    FirstIsFed(sorted, providers, construction.value);
    return Ok(construction.value);
  }

  lemma FirstIsFed(sorted: seq<Spec>, providers: map<Name, Spec>, construction: seq<Spec>)
    requires FirstArrangement(sorted, Feeding(providers), construction)
    ensures FedInOrder(construction, providers)
  {
    hide Feeding, FedInOrder;
    OrderFeeds(construction, providers);
  }

  lemma DependenciesCompiled(active: seq<Spec>, sorted: seq<Spec>, providers: map<Name, Spec>)
    requires UniqueIds(active) && SetOf(sorted) == SetOf(active) && Ascending(sorted)
    ensures UniqueIds(sorted) && Compiles(sorted, ConstructionDependencies(active, providers), Feeding(providers))
  {
    hide ConstructionDependencies, Feeds;
    forall s | s in sorted ensures s in active && s.id in ConstructionDependencies(active, providers) {
      assert s in SetOf(sorted);
      DependenciesAreFeeds(active, providers, s, s);
    }
    forall a, b | a in sorted && b in sorted
      ensures a.id in ConstructionDependencies(active, providers)[b.id] <==> Feeding(providers)(a, b)
    {
      DependenciesAreFeeds(active, providers, a, b);
    }
  }

  lemma PromiseKept(listed: seq<Spec>, r: Resolution, active: seq<Spec>)
    requires GreatestStable(listed, SetOf(r.modules)) && r.modules == Keep(listed, SetOf(r.modules))
    requires r.providers.Keys == Provided(SetOf(r.modules))
    requires forall c :: c in r.providers ==> Wins(Offers(r.modules, c), r.providers[c])
    requires UniqueIds(r.construction) && SetOf(r.construction) == SetOf(active)
    requires forall s :: s in active <==> s in r.modules && IsActive(s, r.providers)
    requires forall s :: s in active ==>
               && s.id !in s.depends
               && (forall d :: d in s.depends ==> d in IdsOf(SetOf(active)))
               && (forall q :: q in s.requirements ==> q in r.providers)
    requires active == Keep(r.modules, set s | s in r.modules && IsActive(s, r.providers))
    requires Declared(active, r.modules) && forall s, o :: s in active && o in s.order ==> Timely(o)
    requires FedInOrder(r.construction, r.providers) && FirstByName(active, r.providers, r.construction)
    ensures Resolved(listed, r)
  {
    hide GreatestStable, Wins, FedInOrder, IsActive, FirstByName, Declarers, Timely, HasId, Provided, Keep, UniqueIds;
    assert forall s :: s in SetOf(r.construction) <==> s in SetOf(active);
    assert SetOf(r.construction) == set s | s in r.modules && IsActive(s, r.providers);
    forall s ensures s in r.construction <==> s in active {
      assert s in SetOf(r.construction) <==> s in SetOf(active);
    }
    NeedsMet(r, active);
  }

  /** What active modules depend on and require is constructed with them. */
  lemma NeedsMet(r: Resolution, active: seq<Spec>)
    requires forall c :: c in r.providers ==> Wins(Offers(r.modules, c), r.providers[c])
    requires SetOf(r.construction) == SetOf(active)
    requires forall s :: s in r.construction <==> s in active
    requires forall s :: s in active <==> s in r.modules && IsActive(s, r.providers)
    requires forall s :: s in active ==>
               && (forall d :: d in s.depends ==> d in IdsOf(SetOf(active)))
               && (forall q :: q in s.requirements ==> q in r.providers)
    ensures forall s, d :: s in r.construction && d in s.depends ==> HasId(r.construction, d)
    ensures forall s, q :: s in r.construction && q in s.requirements ==> q in r.providers && r.providers[q] in r.construction
  {
    hide Wins, IsActive, HasId;
    forall s, d | s in r.construction && d in s.depends ensures HasId(r.construction, d) {
      assert s in active;
      IdHasSpec(r.construction, d);
    }
    forall s, q | s in r.construction && q in s.requirements
      ensures q in r.providers && r.providers[q] in r.construction
    {
      assert s in active;
      ProvidersAreActive(r.modules, r.providers, q);
    }
  }

  // ---------------------------------------------------------------- the module list of a phase

  function OrderingDependencies(spec: Spec, phase: Phase, providers: map<Name, Spec>): set<Name> {
    set o, c | o in spec.order && o.phase == phase
               && (o.afterPhase.None? || o.afterPhase.value == phase)
               && c in o.after && c in providers :: providers[c].id
  }

  function OrderingMap(specs: seq<Spec>, phase: Phase, providers: map<Name, Spec>): map<Name, set<Name>> {
    map id | id in IdsOf(SetOf(specs)) ::
      IdHasSpec(specs, id);
      OrderingDependencies(ById(specs, id), phase, providers)
  }

  function Reverse(specs: seq<Spec>): (r: seq<Spec>)
    ensures |r| == |specs|
  {
    seq(|specs|, i requires 0 <= i < |specs| => specs[|specs| - 1 - i])
  }

  function Participants(specs: seq<Spec>, phase: Phase): seq<Spec> {
    Keep(specs, set s | s in specs && phase in s.hooks)
  }

  function PhaseBase(phase: Phase, construction: seq<Spec>): seq<Spec> {
    if phase.shutdown then Reverse(construction) else construction
  }

  /** In this phase the consumer has to come after the selected provider of some capability. */
  predicate Constrains(source: Spec, consumer: Spec, phase: Phase, providers: map<Name, Spec>) {
    exists o, c :: o in consumer.order && c in o.after && o.phase == phase && (o.afterPhase.None? || o.afterPhase == Some(phase))
                   && c in providers && providers[c].id == source.id
  }

  function Constraining(phase: Phase, providers: map<Name, Spec>): (Spec, Spec) -> bool {
    (source: Spec, consumer: Spec) => Constrains(source, consumer, phase, providers)
  }

  lemma OrderingsConstrain(source: Spec, consumer: Spec, phase: Phase, providers: map<Name, Spec>)
    ensures source.id in OrderingDependencies(consumer, phase, providers) <==> Constrains(source, consumer, phase, providers)
  {}

  ghost predicate Unconstrained(specs: seq<Spec>, edge: (Spec, Spec) -> bool) {
    forall a, b :: a in specs && b in specs && a != b ==> !edge(a, b)
  }

  /** The participants in the first possible order of all that keep the phase's constraints, ties going to
      the place in construction; or exactly the names that lead into a circle of constraints. */
  ghost predicate Arranged(participants: seq<Spec>, phase: Phase, providers: map<Name, Spec>, r: Result<seq<Spec>, set<Name>>) {
    match r
    case Ok(order) => FirstArrangement(participants, Constraining(phase, providers), order)
    case Err(names) => NamesCircles(participants, Constraining(phase, providers), names)
  }

  lemma {:induction false} KeepOrder(specs: seq<Spec>, keep: set<Spec>, i: nat, j: nat) returns (a: nat, b: nat)
    requires i < j < |Keep(specs, keep)|
    ensures a < b < |specs| && specs[a] == Keep(specs, keep)[i] && specs[b] == Keep(specs, keep)[j]
  {
    if specs[0] !in keep {
      a, b := KeepOrder(specs[1..], keep, i, j);
    } else if i == 0 {
      KeepMembers(specs[1..], keep);
      assert Keep(specs[1..], keep)[j - 1] in Keep(specs[1..], keep);
      a, b :| a == 0 && 0 <= b < |specs[1..]| && specs[1..][b] == Keep(specs[1..], keep)[j - 1];
    } else {
      a, b := KeepOrder(specs[1..], keep, i - 1, j - 1);
    }
    a, b := if specs[0] in keep && i == 0 then 0 else a + 1, b + 1;
  }

  /** Without constraints the participants come as they were constructed, on shutdown the other way round. */
  lemma ShutdownReverses(phase: Phase, construction: seq<Spec>, i: nat, j: nat) returns (a: nat, b: nat)
    requires i < j < |Participants(PhaseBase(phase, construction), phase)|
    ensures a < |construction| && b < |construction| && if phase.shutdown then b < a else a < b
    ensures construction[a] == Participants(PhaseBase(phase, construction), phase)[i]
    ensures construction[b] == Participants(PhaseBase(phase, construction), phase)[j]
  {
    var base := PhaseBase(phase, construction);
    a, b := KeepOrder(base, (set s | s in base && phase in s.hooks), i, j);
    if phase.shutdown {
      a, b := |construction| - 1 - a, |construction| - 1 - b;
    }
  }

  /** Constraints admit an order or have a circle, never both. */
  lemma ArrangedOrNot(participants: seq<Spec>, phase: Phase, providers: map<Name, Spec>, order: seq<Spec>, names: set<Name>)
    requires Arranged(participants, phase, providers, Ok(order))
    ensures !Arranged(participants, phase, providers, Err(names))
  {
    hide Constraining, Arrangement, NamesCircles;
    NotCircles(participants, Constraining(phase, providers), order, names);
  }

  method PhaseModules(phase: Phase, providers: map<Name, Spec>, construction: seq<Spec>) returns (r: Result<seq<Spec>, set<Name>>)
    requires UniqueIds(construction)
    ensures phase == CONSTRUCT ==> r == Ok(construction)
    ensures phase == PREPARE ==> r == Ok(Participants(construction, PREPARE))
    ensures r.Ok? && phase != CONSTRUCT ==> forall s :: s in r.value <==> s in construction && phase in s.hooks
    ensures r.Ok? && phase != CONSTRUCT && phase != PREPARE ==>
              forall i, j :: 0 <= i < |r.value| && 0 <= j < |r.value| && i != j ==>
                Constrains(r.value[i], r.value[j], phase, providers) ==> i < j
    ensures phase != CONSTRUCT && phase != PREPARE &&
            Unconstrained(Participants(PhaseBase(phase, construction), phase), Constraining(phase, providers)) ==>
              r == Ok(Participants(PhaseBase(phase, construction), phase))
    ensures phase != CONSTRUCT && phase != PREPARE ==> Arranged(Participants(PhaseBase(phase, construction), phase), phase, providers, r)
  {
    hide Compiles, Constraining, FirstArrangement, NamesCircles, Unconstrained, Constrains, UniqueIds, Keep, OrderingMap, PhaseBase;
    if phase == CONSTRUCT {
      return Ok(construction);
    }
    KeepMembers(construction, set s | s in construction && phase in s.hooks);
    if phase == PREPARE {
      return Ok(Participants(construction, PREPARE));
    }
    var base := PhaseBase(phase, construction);
    BaseMembers(phase, construction);
    KeepMembers(base, set s | s in base && phase in s.hooks);
    var participants := Participants(base, phase);
    var dependencies := OrderingMap(participants, phase, providers);
    var constraining := Constraining(phase, providers);
    OrderingsCompiled(participants, phase, providers);
    r := SortSpecs(participants, dependencies, constraining);
    if r.Ok? {
      assert forall s :: s in r.value <==> s in SetOf(r.value);
      assert forall s :: s in participants <==> s in SetOf(participants);
      FirstIsConstrained(participants, phase, providers, r.value);
      if Unconstrained(participants, constraining) {
        FirstUnconstrained(participants, constraining, r.value);
      }
    } else if Unconstrained(participants, constraining) {
      ListedArranged(participants, constraining);
      NotCircles(participants, constraining, participants, r.error);
    }
  }

  lemma OrderingsCompiled(specs: seq<Spec>, phase: Phase, providers: map<Name, Spec>)
    requires UniqueIds(specs)
    ensures Compiles(specs, OrderingMap(specs, phase, providers), Constraining(phase, providers))
  {
    hide OrderingDependencies, Constrains, OrderingMap;
    OrderingMapAt(specs, phase, providers);
    forall a, b | a in specs && b in specs
      ensures a.id in OrderingMap(specs, phase, providers)[b.id] <==> Constraining(phase, providers)(a, b)
    {
      OrderingsConstrain(a, b, phase, providers);
    }
  }

  lemma FirstIsConstrained(participants: seq<Spec>, phase: Phase, providers: map<Name, Spec>, order: seq<Spec>)
    requires FirstArrangement(participants, Constraining(phase, providers), order)
    ensures forall i, j :: 0 <= i < |order| && 0 <= j < |order| && i != j ==>
              Constrains(order[i], order[j], phase, providers) ==> i < j
  {
    hide Constrains;
    var constraining := Constraining(phase, providers);
    forall i, j | 0 <= i < |order| && 0 <= j < |order| && i != j && Constrains(order[i], order[j], phase, providers) ensures i < j {
      assert constraining(order[i], order[j]);
    }
  }

  lemma OrderingMapAt(specs: seq<Spec>, phase: Phase, providers: map<Name, Spec>)
    requires UniqueIds(specs)
    ensures forall s :: s in specs ==>
              s.id in OrderingMap(specs, phase, providers) &&
              OrderingMap(specs, phase, providers)[s.id] == OrderingDependencies(s, phase, providers)
  {
    hide OrderingDependencies;
    forall s | s in specs
      ensures s.id in OrderingMap(specs, phase, providers)
      ensures OrderingMap(specs, phase, providers)[s.id] == OrderingDependencies(s, phase, providers)
    {
      assert s in SetOf(specs);
      IdHasSpec(specs, s.id);
      SameId(specs, s, ById(specs, s.id));
    }
  }

  lemma BaseMembers(phase: Phase, construction: seq<Spec>)
    requires UniqueIds(construction)
    ensures UniqueIds(PhaseBase(phase, construction))
    ensures forall s :: s in PhaseBase(phase, construction) <==> s in construction
  {
    var base, n := PhaseBase(phase, construction), |construction|;
    if phase.shutdown {
      forall s | s in construction ensures s in base {
        var i :| 0 <= i < n && construction[i] == s;
        assert base[n - 1 - i] == s;
      }
    }
  }

  lemma ListedArranged(participants: seq<Spec>, edge: (Spec, Spec) -> bool)
    requires UniqueIds(participants) && Unconstrained(participants, edge)
    ensures Arrangement(participants, edge, participants)
  {
    forall i, j | 0 <= i < |participants| && 0 <= j < |participants| && i != j ensures !edge(participants[i], participants[j]) {
      assert participants[i] in participants && participants[j] in participants && participants[i] != participants[j];
    }
  }

  lemma FirstUnconstrained(participants: seq<Spec>, edge: (Spec, Spec) -> bool, order: seq<Spec>)
    requires UniqueIds(participants) && Unconstrained(participants, edge) && FirstArrangement(participants, edge, order)
    ensures order == participants
  {
    ListedArranged(participants, edge);
  }
}
