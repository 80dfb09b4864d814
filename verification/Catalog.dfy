/** Paged discovery over a static catalogue and dynamic providers
    (src/aurora_bot/resources/catalog.py, src/aurora_bot/contracts/resource_paging.py). */
module Catalog {
  import opened Common

  datatype Key = Key(namespace: string, domain: string, kind: string, name: string)

  datatype Ref = Ref(key: Key, revision: string)

  datatype Descriptor = Descriptor(ref: Ref, content: string)

  /** The two digests that make up a position; fixed-length hexadecimal text orders like numbers. */
  datatype Digests = Digests(ofKey: Key -> nat, ofRevision: string -> nat)

  datatype Position = Position(identity: nat, revision: nat)

  datatype Filters = Filters(namespace: Option<string>, domain: Option<string>, kind: Option<string>)

  datatype Cursor = Cursor(filters: Filters, position: Position) | Corrupt

  datatype Query = Query(filters: Filters, limit: nat, after: Option<Cursor>)

  datatype Page = Page(items: seq<Descriptor>, nextCursor: Option<Cursor>)

  datatype Error = InvalidCursor | InvalidPage(provider: nat) | Disagreement(ref: Ref)

  type Provider = Query -> Page

  /** Distinct resources have distinct positions. */
  ghost predicate Injective(d: Digests) {
    && (forall a, b :: d.ofKey(a) == d.ofKey(b) ==> a == b)
    && (forall a, b :: d.ofRevision(a) == d.ofRevision(b) ==> a == b)
  }

  function At(d: Digests, r: Ref): Position {
    Position(d.ofKey(r.key), d.ofRevision(r.revision))
  }

  predicate Less(a: Position, b: Position) {
    a.identity < b.identity || (a.identity == b.identity && a.revision < b.revision)
  }

  predicate Before(d: Digests, a: Ref, b: Ref) {
    Less(At(d, a), At(d, b))
  }

  predicate Matches(f: Filters, k: Key) {
    && (f.namespace.None? || f.namespace.value == k.namespace)
    && (f.domain.None? || f.domain.value == k.domain)
    && (f.kind.None? || f.kind.value == k.kind)
  }

  predicate Beyond(d: Digests, after: Option<Position>, r: Ref) {
    after.None? || Less(after.value, At(d, r))
  }

  // ---------------------------------------------------------------- sets of resources in order

  lemma Trichotomy(d: Digests, a: Ref, b: Ref)
    requires Injective(d)
    ensures a == b || Before(d, a, b) || Before(d, b, a)
    ensures !(Before(d, a, b) && Before(d, b, a))
  {}

  ghost predicate IsLeast(d: Digests, s: set<Ref>, r: Ref) {
    r in s && forall q :: q in s && q != r ==> Before(d, r, q)
  }

  lemma {:induction false} LeastExists(d: Digests, s: set<Ref>)
    requires Injective(d) && s != {}
    ensures exists r :: IsLeast(d, s, r)
  {
    hide Before;
    var x :| x in s;
    if s == {x} {
      assert IsLeast(d, s, x);
    } else {
      LeastExists(d, s - {x});
      var r :| IsLeast(d, s - {x}, r);
      Trichotomy(d, x, r);
      if Before(d, x, r) {
        forall q | q in s && q != x ensures Before(d, x, q) {
          BeforeTransitive(d, x, r, q);
        }
        assert IsLeast(d, s, x);
      } else {
        assert IsLeast(d, s, r);
      }
    }
  }

  lemma BeforeTransitive(d: Digests, a: Ref, b: Ref, c: Ref)
    requires Before(d, a, b) && (b == c || Before(d, b, c))
    ensures Before(d, a, c)
  {}

  lemma LeastUnique(d: Digests, s: set<Ref>, a: Ref, b: Ref)
    requires Injective(d) && IsLeast(d, s, a) && IsLeast(d, s, b)
    ensures a == b
  {
    Trichotomy(d, a, b);
  }

  ghost function Least(d: Digests, s: set<Ref>): (r: Ref)
    requires Injective(d) && s != {}
    ensures IsLeast(d, s, r)
  {
    LeastExists(d, s);
    var r :| IsLeast(d, s, r);
    r
  }

  /** A set of resources in `resource_order`. */
  ghost function Line(d: Digests, s: set<Ref>): (line: seq<Ref>)
    requires Injective(d)
    ensures |line| == |s|
  {
    if s == {} then [] else [Least(d, s)] + Line(d, s - {Least(d, s)})
  }

  function Min(a: nat, b: nat): nat {
    if a < b then a else b
  }

  /** The first n of a set in order. */
  ghost function FirstN(d: Digests, s: set<Ref>, n: nat): seq<Ref>
    requires Injective(d)
  {
    Line(d, s)[..Min(n, |s|)]
  }

  lemma FirstStep(d: Digests, s: set<Ref>, n: nat)
    requires Injective(d) && s != {} && n > 0
    ensures FirstN(d, s, n) == [Least(d, s)] + FirstN(d, s - {Least(d, s)}, n - 1)
  {}

  lemma LeastIs(d: Digests, s: set<Ref>, r: Ref)
    requires Injective(d) && IsLeast(d, s, r)
    ensures s != {} && Least(d, s) == r
  {
    LeastUnique(d, s, r, Least(d, s));
  }

  lemma {:induction false} FirstWithin(d: Digests, s: set<Ref>, n: nat)
    requires Injective(d)
    ensures forall r :: r in FirstN(d, s, n) ==> r in s
    ensures n >= |s| ==> forall r :: r in s ==> r in FirstN(d, s, n)
    decreases n
  {
    if s != {} && n > 0 {
      FirstStep(d, s, n);
      FirstWithin(d, s - {Least(d, s)}, n - 1);
    }
  }

  /** A resource among the first n of a whole is among the first n of every part that has it. */
  lemma {:induction false} FirstOfPart(d: Digests, whole: set<Ref>, part: set<Ref>, n: nat, r: Ref)
    requires Injective(d) && part <= whole && r in part && r in FirstN(d, whole, n)
    ensures r in FirstN(d, part, n)
    decreases n
  {
    hide Line, IsLeast, FirstN;
    FirstPositive(d, whole, n, r);
    FirstStep(d, whole, n);
    FirstStep(d, part, n);
    var least := Least(d, whole);
    if r == least {
      LeastOfPart(d, whole, part);
    } else {
      var rest := part - {least};
      FirstOfPart(d, whole - {least}, rest, n - 1, r);
      if least in part {
        LeastOfPart(d, whole, part);
      } else {
        assert rest == part;
        FirstMore(d, part, n - 1, r);
      }
    }
  }

  lemma FirstPositive(d: Digests, s: set<Ref>, n: nat, r: Ref)
    requires Injective(d) && r in FirstN(d, s, n)
    ensures n > 0 && s != {}
  {}

  lemma FirstMore(d: Digests, s: set<Ref>, n: nat, r: Ref)
    requires Injective(d) && r in FirstN(d, s, n)
    ensures r in FirstN(d, s, n + 1)
  {
    var i :| 0 <= i < |FirstN(d, s, n)| && FirstN(d, s, n)[i] == r;
    assert FirstN(d, s, n + 1)[i] == r;
  }

  lemma LeastOfPart(d: Digests, whole: set<Ref>, part: set<Ref>)
    requires Injective(d) && part <= whole && whole != {} && Least(d, whole) in part
    ensures Least(d, part) == Least(d, whole)
  {
    LeastIs(d, part, Least(d, whole));
  }

  /** A part that has the first n of a whole has the same first n. */
  lemma {:induction false} SameFirst(d: Digests, whole: set<Ref>, part: set<Ref>, n: nat)
    requires Injective(d) && part <= whole && forall r :: r in FirstN(d, whole, n) ==> r in part
    ensures FirstN(d, part, n) == FirstN(d, whole, n)
    decreases n
  {
    hide IsLeast;
    if whole != {} && n > 0 {
      var least := Least(d, whole);
      FirstStep(d, whole, n);
      assert least in FirstN(d, whole, n);
      LeastOfPart(d, whole, part);
      FirstStep(d, part, n);
      forall r | r in FirstN(d, whole - {least}, n - 1) ensures r in part - {least} {
        FirstWithin(d, whole - {least}, n - 1);
        assert r in FirstN(d, whole, n);
      }
      SameFirst(d, whole - {least}, part - {least}, n - 1);
    }
  }

  /** Merging pages: the first n of a union are the first n of the union of everyone's first n. */
  lemma MergedFirst(d: Digests, parts: seq<set<Ref>>, whole: set<Ref>, merged: set<Ref>, n: nat)
    requires Injective(d)
    requires forall r :: r in whole <==> exists i :: 0 <= i < |parts| && r in parts[i]
    requires forall r :: r in merged <==> exists i :: 0 <= i < |parts| && r in FirstN(d, parts[i], n)
    ensures FirstN(d, merged, n) == FirstN(d, whole, n)
  {
    hide FirstN;
    forall r | r in merged ensures r in whole {
      var i :| 0 <= i < |parts| && r in FirstN(d, parts[i], n);
      FirstWithin(d, parts[i], n);
    }
    forall r | r in FirstN(d, whole, n) ensures r in merged {
      FirstWithin(d, whole, n);
      var i :| 0 <= i < |parts| && r in parts[i];
      forall q | q in parts[i] ensures q in whole {}
      FirstOfPart(d, whole, parts[i], n, r);
    }
    SameFirst(d, whole, merged, n);
  }

  /** What is left beyond the last of the first n is the set without them. */
  lemma {:induction false} LineSplit(d: Digests, s: set<Ref>, n: nat)
    requires Injective(d) && 0 < n < |s|
    ensures var first := FirstN(d, s, n);
            && |first| == n
            && Line(d, s) == first + Line(d, set r | r in s && Before(d, first[n - 1], r))
            && |set r | r in s && Before(d, first[n - 1], r)| == |s| - n
    decreases n
  {
    hide Before, IsLeast, FirstN, Line;
    var least := Least(d, s);
    var rest := s - {least};
    FirstStep(d, s, n);
    LineStep(d, s);
    if n == 1 {
      FirstNone(d, rest);
      BehindLeast(d, s);
    } else {
      LineSplit(d, rest, n - 1);
      var last := FirstN(d, rest, n - 1)[n - 2];
      FirstWithin(d, rest, n - 1);
      assert last in rest;
      BehindOther(d, s, last);
      var behind := Line(d, set r | r in rest && Before(d, last, r));
      assert [least] + (FirstN(d, rest, n - 1) + behind) == ([least] + FirstN(d, rest, n - 1)) + behind;
    }
  }

  lemma LineStep(d: Digests, s: set<Ref>)
    requires Injective(d) && s != {}
    ensures Least(d, s) in s && Line(d, s) == [Least(d, s)] + Line(d, s - {Least(d, s)})
  {}

  lemma FirstNone(d: Digests, s: set<Ref>)
    requires Injective(d)
    ensures FirstN(d, s, 0) == []
  {}

  /** Behind the least of a set is everything else. */
  lemma BehindLeast(d: Digests, s: set<Ref>)
    requires Injective(d) && s != {}
    ensures (set r | r in s && Before(d, Least(d, s), r)) == s - {Least(d, s)}
  {
    hide Before;
    var least := Least(d, s);
    NotBeforeItself(d, least);
    forall r | r in s && r != least ensures Before(d, least, r) {
      assert IsLeast(d, s, least);
    }
  }

  /** Behind any other one, the least is not missed. */
  lemma BehindOther(d: Digests, s: set<Ref>, last: Ref)
    requires Injective(d) && s != {} && last in s && last != Least(d, s)
    ensures (set r | r in s && Before(d, last, r)) == (set r | r in s - {Least(d, s)} && Before(d, last, r))
  {
    hide Before;
    assert IsLeast(d, s, Least(d, s));
    Trichotomy(d, Least(d, s), last);
  }

  lemma NotBeforeItself(d: Digests, r: Ref)
    ensures !Before(d, r, r)
  {}

  // ---------------------------------------------------------------- pages of a fixed population

  /** Every description is kept under its own reference. */
  ghost predicate Keyed(population: map<Ref, Descriptor>) {
    forall r :: r in population ==> population[r].ref == r
  }

  function Remaining(d: Digests, population: map<Ref, Descriptor>, filters: Filters, after: Option<Position>): set<Ref> {
    set r | r in population && Matches(filters, r.key) && Beyond(d, after, r)
  }

  function Items(population: map<Ref, Descriptor>, refs: seq<Ref>): (items: seq<Descriptor>)
    requires forall r :: r in refs ==> r in population
    ensures |items| == |refs| && forall i :: 0 <= i < |refs| ==> items[i] == population[refs[i]]
  {
    if refs == [] then [] else [population[refs[0]]] + Items(population, refs[1..])
  }

  /** `resource_position`: a damaged cursor or one of another filter is refused; the page size is free. */
  function PositionOf(query: Query): Result<Option<Position>, Error> {
    match query.after
    case None => Ok(None)
    case Some(Corrupt) => Err(InvalidCursor)
    case Some(Cursor(filters, position)) => if filters == query.filters then Ok(Some(position)) else Err(InvalidCursor)
  }

  ghost predicate WellAsked(query: Query) {
    query.limit >= 1 && PositionOf(query).Ok?
  }

  /** The page a population owes a query: the least remaining, and a cursor exactly when more remain. */
  ghost function PageOf(d: Digests, population: map<Ref, Descriptor>, query: Query): Page
    requires Injective(d) && WellAsked(query)
  {
    var left := Remaining(d, population, query.filters, PositionOf(query).value);
    FirstWithin(d, left, query.limit);
    var first := FirstN(d, left, query.limit);
    Page(Items(population, first),
         if |left| > query.limit then Some(Cursor(query.filters, At(d, first[query.limit - 1]))) else None)
  }

  ghost predicate Honest(d: Digests, provider: Provider, population: map<Ref, Descriptor>)
    requires Injective(d)
  {
    Keyed(population) && forall query :: WellAsked(query) ==> provider(query) == PageOf(d, population, query)
  }

  /** `_validate_page`: what a provider's page must satisfy, whoever answers. */
  predicate ValidPage(d: Digests, query: Query, after: Option<Position>, page: Page) {
    && |page.items| <= query.limit
    && (forall i, j | 0 <= i < j < |page.items| :: Before(d, page.items[i].ref, page.items[j].ref))
    && (forall i | 0 <= i < |page.items| :: Matches(query.filters, page.items[i].ref.key) && Beyond(d, after, page.items[i].ref))
    && (page.nextCursor.Some? ==>
          && |page.items| == query.limit > 0
          && page.nextCursor.value == Cursor(query.filters, At(d, page.items[query.limit - 1].ref)))
  }

  lemma {:induction false} LineSorted(d: Digests, s: set<Ref>, i: nat, j: nat)
    requires Injective(d) && i < j < |s|
    ensures Before(d, Line(d, s)[i], Line(d, s)[j])
    decreases j
  {
    hide Before;
    var rest := s - {Least(d, s)};
    if i == 0 {
      LineWithin(d, rest, j - 1);
    } else {
      LineSorted(d, rest, i - 1, j - 1);
    }
  }

  lemma {:induction false} LineWithin(d: Digests, s: set<Ref>, i: nat)
    requires Injective(d) && i < |s|
    ensures Line(d, s)[i] in s
    decreases i
  {
    if i > 0 {
      LineWithin(d, s - {Least(d, s)}, i - 1);
    }
  }

  /** An honest page is never refused. */
  lemma HonestPageValid(d: Digests, population: map<Ref, Descriptor>, query: Query)
    requires Injective(d) && WellAsked(query) && Keyed(population)
    ensures ValidPage(d, query, PositionOf(query).value, PageOf(d, population, query))
  {
    hide Before, Line;
    var left := Remaining(d, population, query.filters, PositionOf(query).value);
    var page := PageOf(d, population, query);
    FirstWithin(d, left, query.limit);
    forall i | 0 <= i < |page.items| ensures page.items[i].ref == Line(d, left)[i] {
      LineWithin(d, left, i);
    }
    forall i, j | 0 <= i < j < |page.items| ensures Before(d, page.items[i].ref, page.items[j].ref) {
      LineSorted(d, left, i, j);
    }
    forall i | 0 <= i < |page.items|
      ensures Matches(query.filters, page.items[i].ref.key) && Beyond(d, PositionOf(query).value, page.items[i].ref)
    {
      LineWithin(d, left, i);
    }
  }

  // ---------------------------------------------------------------- merging

  function AllItems(pages: seq<Page>): seq<Descriptor> {
    if pages == [] then [] else AllItems(pages[..|pages| - 1]) + pages[|pages| - 1].items
  }

  function Preferred(definitions: map<Ref, Descriptor>, item: Descriptor): Descriptor {
    if item.ref in definitions then definitions[item.ref] else item
  }

  /** What merging makes of the items: each reference once, static definitions first. */
  ghost predicate Combined(definitions: map<Ref, Descriptor>, items: seq<Descriptor>, merged: map<Ref, Descriptor>) {
    && (forall r :: r in merged <==> exists k :: 0 <= k < |items| && items[k].ref == r)
    && (forall k :: 0 <= k < |items| ==> merged[items[k].ref] == Preferred(definitions, items[k]))
  }

  ghost predicate Disagree(definitions: map<Ref, Descriptor>, items: seq<Descriptor>, ref: Ref) {
    ref !in definitions && exists k, l :: 0 <= k < l < |items| && items[k].ref == items[l].ref == ref && items[k] != items[l]
  }

  lemma {:induction false} InAllItems(pages: seq<Page>, item: Descriptor)
    ensures item in AllItems(pages) <==> exists i :: 0 <= i < |pages| && item in pages[i].items
  {
    if pages != [] {
      var n := |pages| - 1;
      InAllItems(pages[..n], item);
      if i :| 0 <= i < |pages| && item in pages[i].items {
        assert i < n ==> item in pages[..n][i].items;
      }
      if i :| 0 <= i < n && item in pages[..n][i].items {
        assert item in pages[i].items;
      }
    }
  }

  lemma CombinedNext(definitions: map<Ref, Descriptor>, items: seq<Descriptor>, item: Descriptor, merged: map<Ref, Descriptor>)
    requires Combined(definitions, items, merged)
    requires item.ref in definitions || item.ref !in merged || merged[item.ref] == item
    ensures Combined(definitions, items + [item], merged[item.ref := Preferred(definitions, item)])
  {
    var longer := items + [item];
    var after := merged[item.ref := Preferred(definitions, item)];
    forall r ensures r in after <==> exists k :: 0 <= k < |longer| && longer[k].ref == r {
      if r == item.ref {
        assert longer[|items|].ref == r;
      } else if k :| 0 <= k < |items| && items[k].ref == r {
        assert longer[k].ref == r;
      }
    }
  }

  /** A second description of an undeclared resource that differs from the first is a disagreement. */
  lemma CombinedClash(definitions: map<Ref, Descriptor>, items: seq<Descriptor>, merged: map<Ref, Descriptor>, all: seq<Descriptor>)
    requires Combined(definitions, items, merged) && |items| < |all| && items <= all
    requires all[|items|].ref !in definitions && all[|items|].ref in merged && merged[all[|items|].ref] != all[|items|]
    ensures Disagree(definitions, all, all[|items|].ref)
  {
    var k :| 0 <= k < |items| && items[k].ref == all[|items|].ref;
    assert all[k] == items[k];
  }

  method Merge(definitions: map<Ref, Descriptor>, pages: seq<Page>) returns (r: Result<map<Ref, Descriptor>, Ref>)
    ensures r.Ok? ==> Combined(definitions, AllItems(pages), r.value)
    ensures r.Err? ==> Disagree(definitions, AllItems(pages), r.error)
  {
    hide Combined, Disagree;
    var merged: map<Ref, Descriptor> := map[];
    CombinedNothing(definitions);
    for i := 0 to |pages|
      invariant Combined(definitions, AllItems(pages[..i]), merged)
    {
      var items := pages[i].items;
      ghost var before := AllItems(pages[..i]);
      assert pages[..i + 1][..i] == pages[..i];
      assert AllItems(pages[..i + 1]) == before + items;
      assert before + items[..0] == before;
      for k := 0 to |items|
        invariant Combined(definitions, before + items[..k], merged)
      {
        var item := items[k];
        assert before + items[..k + 1] == (before + items[..k]) + [item];
        if item.ref !in definitions && item.ref in merged && merged[item.ref] != item {
          AllItemsPrefix(pages, i + 1);
          assert before + items[..k] <= AllItems(pages);
          CombinedClash(definitions, before + items[..k], merged, AllItems(pages));
          return Err(item.ref);
        }
        CombinedNext(definitions, before + items[..k], item, merged);
        merged := merged[item.ref := Preferred(definitions, item)];
      }
      assert before + items[..|items|] == before + items;
    }
    assert pages[..|pages|] == pages;
    return Ok(merged);
  }

  lemma CombinedNothing(definitions: map<Ref, Descriptor>)
    ensures Combined(definitions, AllItems([]), map[])
  {}

  lemma {:induction false} AllItemsPrefix(pages: seq<Page>, n: nat)
    requires n <= |pages|
    ensures AllItems(pages[..n]) <= AllItems(pages)
  {
    if n == |pages| {
      assert pages[..n] == pages;
    } else {
      AllItemsPrefix(pages[..|pages| - 1], n);
      assert pages[..|pages| - 1][..n] == pages[..n];
    }
  }

  method LeastOf(d: Digests, s: set<Ref>) returns (r: Ref)
    requires Injective(d) && s != {}
    ensures r == Least(d, s)
  {
    hide Before;
    r :| r in s;
    var todo := s - {r};
    while todo != {}
      invariant todo <= s && r in s && r !in todo
      invariant forall q :: q in s && q !in todo && q != r ==> Before(d, r, q)
      decreases todo
    {
      var q :| q in todo;
      todo := todo - {q};
      Trichotomy(d, q, r);
      if Before(d, q, r) {
        forall p | p in s && p !in todo && p != q ensures Before(d, q, p) {
          BeforeTransitive(d, q, r, p);
        }
        r := q;
      }
    }
    LeastIs(d, s, r);
  }

  /** `heapq.nsmallest` and the sorted slice: the first n of a set. */
  method Smallest(d: Digests, s: set<Ref>, n: nat) returns (first: seq<Ref>)
    requires Injective(d)
    ensures first == FirstN(d, s, n)
  {
    hide Least, FirstN, Line;
    first := [];
    var left := s;
    assert [] + FirstN(d, s, n) == FirstN(d, s, n);
    while |first| < n && left != {}
      invariant |first| <= n && left <= s
      invariant FirstN(d, s, n) == first + FirstN(d, left, n - |first|)
      decreases left
    {
      var r := LeastOf(d, left);
      FirstStep(d, left, n - |first|);
      assert first + ([r] + FirstN(d, left - {r}, n - |first| - 1)) == (first + [r]) + FirstN(d, left - {r}, n - |first| - 1);
      first, left := first + [r], left - {r};
    }
    FirstNone(d, left);
    FirstOfNone(d, n - |first|);
    assert first + [] == first;
  }

  lemma FirstOfNone(d: Digests, n: nat)
    requires Injective(d)
    ensures FirstN(d, {}, n) == []
  {}

  // ---------------------------------------------------------------- one page of everything

  /** The union of the static definitions and the providers' populations, static first; such a map
      exists exactly when the providers agree on every undeclared resource they share. */
  ghost predicate IsUnion(populations: seq<map<Ref, Descriptor>>, union: map<Ref, Descriptor>) {
    && populations != []
    && (forall r :: r in union <==> exists i :: 0 <= i < |populations| && r in populations[i])
    && (forall i, r :: 0 <= i < |populations| && r in populations[i] ==>
          union[r] == if r in populations[0] then populations[0][r] else populations[i][r])
  }

  ghost predicate AllHonest(d: Digests, providers: seq<Provider>, populations: seq<map<Ref, Descriptor>>)
    requires Injective(d)
  {
    |providers| == |populations| && forall i :: 0 <= i < |providers| ==> Honest(d, providers[i], populations[i])
  }

  /** Every page is what its population owes the query. */
  ghost predicate PagesOf(d: Digests, populations: seq<map<Ref, Descriptor>>, query: Query, pages: seq<Page>)
    requires Injective(d) && WellAsked(query)
  {
    |pages| == |populations| && forall i :: 0 <= i < |pages| ==> Keyed(populations[i]) && pages[i] == PageOf(d, populations[i], query)
  }

  lemma PageLists(d: Digests, population: map<Ref, Descriptor>, query: Query, item: Descriptor)
    requires Injective(d) && WellAsked(query) && Keyed(population) && item in PageOf(d, population, query).items
    ensures item.ref in population && population[item.ref] == item
    ensures item.ref in FirstN(d, Remaining(d, population, query.filters, PositionOf(query).value), query.limit)
  {
    hide FirstN;
    var left := Remaining(d, population, query.filters, PositionOf(query).value);
    FirstWithin(d, left, query.limit);
    var first := FirstN(d, left, query.limit);
    var k :| 0 <= k < |first| && Items(population, first)[k] == item;
    assert first[k] in first;
  }

  lemma PageHas(d: Digests, population: map<Ref, Descriptor>, query: Query, r: Ref)
    requires Injective(d) && WellAsked(query) && Keyed(population)
    requires r in FirstN(d, Remaining(d, population, query.filters, PositionOf(query).value), query.limit)
    ensures r in population && population[r] in PageOf(d, population, query).items
  {
    hide FirstN;
    var left := Remaining(d, population, query.filters, PositionOf(query).value);
    FirstWithin(d, left, query.limit);
    var first := FirstN(d, left, query.limit);
    var k :| 0 <= k < |first| && first[k] == r;
    assert Items(population, first)[k] == population[r];
  }

  /** Honest pages whose populations have a union never disagree. */
  lemma UnionAgrees(d: Digests, populations: seq<map<Ref, Descriptor>>, query: Query, pages: seq<Page>, union: map<Ref, Descriptor>, ref: Ref)
    requires Injective(d) && WellAsked(query) && PagesOf(d, populations, query, pages) && IsUnion(populations, union)
    ensures !Disagree(populations[0], AllItems(pages), ref)
  {
    hide PageOf, AllItems, FirstN, Remaining, Matches, Beyond;
    var items := AllItems(pages);
    forall item | item in items && item.ref !in populations[0] ensures item.ref in union && union[item.ref] == item {
      InAllItems(pages, item);
      var i :| 0 <= i < |pages| && item in pages[i].items;
      PageLists(d, populations[i], query, item);
    }
  }

  /** The merged items hold, for each reference, the union's description. */
  lemma MergedDescribes(d: Digests, populations: seq<map<Ref, Descriptor>>, query: Query, pages: seq<Page>, union: map<Ref, Descriptor>,
      merged: map<Ref, Descriptor>)
    requires Injective(d) && WellAsked(query) && PagesOf(d, populations, query, pages) && IsUnion(populations, union)
    requires Combined(populations[0], AllItems(pages), merged)
    ensures forall r :: r in merged ==> r in union && merged[r] == union[r]
    ensures forall r :: r in merged <==>
              exists i :: 0 <= i < |populations| && r in FirstN(d, Remaining(d, populations[i], query.filters, PositionOf(query).value), query.limit)
  {
    hide PageOf, FirstN, Combined, Remaining, IsUnion;
    forall r | r in merged
      ensures r in union && merged[r] == union[r]
      ensures exists i :: 0 <= i < |populations| && r in FirstN(d, Remaining(d, populations[i], query.filters, PositionOf(query).value), query.limit)
    {
      var i := MergedFrom(d, populations, query, pages, union, merged, r);
    }
    forall r, i | 0 <= i < |populations| && r in FirstN(d, Remaining(d, populations[i], query.filters, PositionOf(query).value), query.limit)
      ensures r in merged
    {
      MergedHas(d, populations, query, pages, merged, r, i);
    }
  }

  lemma MergedFrom(d: Digests, populations: seq<map<Ref, Descriptor>>, query: Query, pages: seq<Page>, union: map<Ref, Descriptor>,
      merged: map<Ref, Descriptor>, r: Ref) returns (i: nat)
    requires Injective(d) && WellAsked(query) && PagesOf(d, populations, query, pages) && IsUnion(populations, union)
    requires Combined(populations[0], AllItems(pages), merged) && r in merged
    ensures r in union && merged[r] == union[r] && i < |populations|
    ensures r in FirstN(d, Remaining(d, populations[i], query.filters, PositionOf(query).value), query.limit)
  {
    hide PageOf, FirstN, Remaining, AllItems;
    var items := AllItems(pages);
    var k :| 0 <= k < |items| && items[k].ref == r;
    InAllItems(pages, items[k]);
    i :| 0 <= i < |pages| && items[k] in pages[i].items;
    PageLists(d, populations[i], query, items[k]);
  }

  lemma MergedHas(d: Digests, populations: seq<map<Ref, Descriptor>>, query: Query, pages: seq<Page>, merged: map<Ref, Descriptor>, r: Ref, i: nat)
    requires Injective(d) && WellAsked(query) && PagesOf(d, populations, query, pages) && i < |populations|
    requires Combined(populations[0], AllItems(pages), merged)
    requires r in FirstN(d, Remaining(d, populations[i], query.filters, PositionOf(query).value), query.limit)
    ensures r in merged
  {
    hide PageOf, FirstN, Remaining, AllItems;
    PageHas(d, populations[i], query, r);
    var item := populations[i][r];
    InAllItems(pages, item);
    var k :| 0 <= k < |AllItems(pages)| && AllItems(pages)[k] == item;
    assert AllItems(pages)[k].ref in merged;
  }

  /** The merged pages yield exactly the page the union owes the query. */
  lemma MergedPage(d: Digests, populations: seq<map<Ref, Descriptor>>, query: Query, pages: seq<Page>, union: map<Ref, Descriptor>,
      merged: map<Ref, Descriptor>)
    requires Injective(d) && WellAsked(query) && PagesOf(d, populations, query, pages) && IsUnion(populations, union)
    requires Combined(populations[0], AllItems(pages), merged)
    ensures var left := Remaining(d, union, query.filters, PositionOf(query).value);
            var first := FirstN(d, merged.Keys, query.limit);
            && first == FirstN(d, left, query.limit)
            && (forall r :: r in first ==> r in merged && r in union && merged[r] == union[r])
            && (|left| > query.limit <==> |merged| > query.limit || exists i :: 0 <= i < |pages| && pages[i].nextCursor.Some?)
  {
    hide FirstN, Combined, Beyond, Matches, IsUnion, AllItems, Line, PagesOf, Remaining, Keyed;
    MergedDescribes(d, populations, query, pages, union, merged);
    var after := PositionOf(query).value;
    var left := Remaining(d, union, query.filters, after);
    var parts := PartsOf(d, populations, query.filters, after);
    PartsOfUnion(d, populations, union, query.filters, after, parts);
    PartsMerged(d, populations, query, merged, parts);
    CursorsTell(d, populations, query, pages, parts);
    MergedFirst(d, parts, left, merged.Keys, query.limit);
    MoreRemain(d, parts, left, merged.Keys, query.limit);
    FirstMerged(d, union, merged, query.limit);
    assert |merged.Keys| == |merged|;
  }

  lemma FirstMerged(d: Digests, union: map<Ref, Descriptor>, merged: map<Ref, Descriptor>, n: nat)
    requires Injective(d) && forall r :: r in merged ==> r in union && merged[r] == union[r]
    ensures forall r :: r in FirstN(d, merged.Keys, n) ==> r in merged && r in union && merged[r] == union[r]
  {
    hide FirstN;
    FirstWithin(d, merged.Keys, n);
  }

  /** What each population has left. */
  function PartsOf(d: Digests, populations: seq<map<Ref, Descriptor>>, filters: Filters, after: Option<Position>): (parts: seq<set<Ref>>)
    ensures |parts| == |populations| && forall i :: 0 <= i < |parts| ==> parts[i] == Remaining(d, populations[i], filters, after)
  {
    seq(|populations|, i requires 0 <= i < |populations| => Remaining(d, populations[i], filters, after))
  }

  lemma PartsMerged(d: Digests, populations: seq<map<Ref, Descriptor>>, query: Query, merged: map<Ref, Descriptor>, parts: seq<set<Ref>>)
    requires Injective(d) && PositionOf(query).Ok? && |parts| == |populations|
    requires forall i :: 0 <= i < |parts| ==> parts[i] == Remaining(d, populations[i], query.filters, PositionOf(query).value)
    requires forall r :: r in merged <==>
               exists i :: 0 <= i < |populations| && r in FirstN(d, Remaining(d, populations[i], query.filters, PositionOf(query).value), query.limit)
    ensures forall r :: r in merged.Keys <==> exists i :: 0 <= i < |parts| && r in FirstN(d, parts[i], query.limit)
  {
    hide FirstN, Remaining;
    forall r ensures r in merged.Keys <==> exists i :: 0 <= i < |parts| && r in FirstN(d, parts[i], query.limit) {
      if i :| 0 <= i < |parts| && r in FirstN(d, parts[i], query.limit) {
        assert r in FirstN(d, Remaining(d, populations[i], query.filters, PositionOf(query).value), query.limit);
      }
      if r in merged {
        var i :| 0 <= i < |populations| && r in FirstN(d, Remaining(d, populations[i], query.filters, PositionOf(query).value), query.limit);
        assert r in FirstN(d, parts[i], query.limit);
      }
    }
  }

  /** A page has a cursor exactly if its population has more than fits. */
  lemma CursorsTell(d: Digests, populations: seq<map<Ref, Descriptor>>, query: Query, pages: seq<Page>, parts: seq<set<Ref>>)
    requires Injective(d) && WellAsked(query) && PagesOf(d, populations, query, pages) && |parts| == |populations|
    requires forall i :: 0 <= i < |parts| ==> parts[i] == Remaining(d, populations[i], query.filters, PositionOf(query).value)
    ensures |pages| == |parts| && forall i :: 0 <= i < |pages| ==> (pages[i].nextCursor.Some? <==> |parts[i]| > query.limit)
  {
    hide Remaining, Line;
    forall i | 0 <= i < |pages| ensures pages[i].nextCursor.Some? <==> |parts[i]| > query.limit {
      FirstWithin(d, parts[i], query.limit);
    }
  }

  lemma PartsOfUnion(d: Digests, populations: seq<map<Ref, Descriptor>>, union: map<Ref, Descriptor>, filters: Filters, after: Option<Position>,
      parts: seq<set<Ref>>)
    requires IsUnion(populations, union) && |parts| == |populations|
    requires forall i :: 0 <= i < |parts| ==> parts[i] == Remaining(d, populations[i], filters, after)
    ensures forall r :: r in Remaining(d, union, filters, after) <==> exists i :: 0 <= i < |parts| && r in parts[i]
  {
    hide Beyond, Matches;
    forall r | r in Remaining(d, union, filters, after) ensures exists i :: 0 <= i < |parts| && r in parts[i] {
      var i :| 0 <= i < |populations| && r in populations[i];
      assert r in parts[i];
    }
  }

  /** More remain than fit exactly when the merged first pages overflow or some part does. */
  lemma MoreRemain(d: Digests, parts: seq<set<Ref>>, whole: set<Ref>, merged: set<Ref>, n: nat)
    requires Injective(d)
    requires forall r :: r in whole <==> exists i :: 0 <= i < |parts| && r in parts[i]
    requires forall r :: r in merged <==> exists i :: 0 <= i < |parts| && r in FirstN(d, parts[i], n)
    ensures |whole| > n <==> |merged| > n || exists i :: 0 <= i < |parts| && |parts[i]| > n
  {
    hide FirstN;
    forall r | r in merged ensures r in whole {
      var i :| 0 <= i < |parts| && r in FirstN(d, parts[i], n);
      FirstWithin(d, parts[i], n);
    }
    Smaller(merged, whole);
    if i :| 0 <= i < |parts| && |parts[i]| > n {
      forall r | r in parts[i] ensures r in whole {}
      Smaller(parts[i], whole);
    } else {
      forall r | r in whole ensures r in merged {
        var i :| 0 <= i < |parts| && r in parts[i];
        FirstWithin(d, parts[i], n);
      }
      assert merged == whole;
    }
  }

  lemma {:induction false} Smaller(a: set<Ref>, b: set<Ref>)
    requires a <= b
    ensures |a| <= |b|
  {
    if a != {} {
      var r :| r in a;
      Smaller(a - {r}, b - {r});
    }
  }

  lemma ItemsSame(a: map<Ref, Descriptor>, b: map<Ref, Descriptor>, refs: seq<Ref>)
    requires forall r :: r in refs ==> r in a && r in b && a[r] == b[r]
    ensures Items(a, refs) == Items(b, refs)
  {}

  lemma StaticWithin(d: Digests, definitions: map<Ref, Descriptor>, filters: Filters, after: Option<Position>, n: nat)
    requires Injective(d)
    ensures var left := Remaining(d, definitions, filters, after);
            && (forall r :: r in FirstN(d, left, n) ==> r in definitions)
            && |FirstN(d, left, n)| == Min(n, |left|)
  {
    FirstWithin(d, Remaining(d, definitions, filters, after), n);
  }

  lemma StaticPage(d: Digests, definitions: map<Ref, Descriptor>, query: Query, own: Page)
    requires Injective(d) && WellAsked(query)
    requires var left := Remaining(d, definitions, query.filters, PositionOf(query).value);
             var first := FirstN(d, left, query.limit);
             (forall r :: r in first ==> r in definitions)
             && own == Page(Items(definitions, first),
                            if |left| > query.limit then Some(Cursor(query.filters, At(d, first[query.limit - 1]))) else None)
    ensures own == PageOf(d, definitions, query)
  {
    hide FirstN, Remaining;
  }

  lemma HonestAnswer(d: Digests, provider: Provider, population: map<Ref, Descriptor>, query: Query)
    requires Injective(d) && Honest(d, provider, population) && WellAsked(query)
    ensures Keyed(population) && provider(query) == PageOf(d, population, query)
  {
    hide PageOf;
  }

  ghost predicate Lists(providers: seq<Provider>, query: Query, item: Descriptor) {
    exists i :: 0 <= i < |providers| && item in providers[i](query).items
  }

  /** A resource without a static definition is described in two ways by what providers list. */
  ghost predicate Conflicting(definitions: map<Ref, Descriptor>, providers: seq<Provider>, query: Query, ref: Ref) {
    && ref !in definitions
    && exists a, b :: Lists(providers, query, a) && Lists(providers, query, b) && a.ref == b.ref == ref && a != b
  }

  /** The pages that are merged: the static one and those of the providers. */
  ghost predicate Gathered(definitions: map<Ref, Descriptor>, providers: seq<Provider>, query: Query, pages: seq<Page>) {
    && |pages| == |providers| + 1
    && (forall item :: item in pages[0].items ==> item.ref in definitions)
    && (forall i :: 0 <= i < |providers| ==> pages[i + 1] == providers[i](query))
  }

  lemma PagesGathered(definitions: map<Ref, Descriptor>, providers: seq<Provider>, query: Query, pages: seq<Page>)
    requires |pages| == |providers| + 1 && forall item :: item in pages[0].items ==> item.ref in definitions
    requires forall i :: 0 <= i < |providers| ==> pages[i + 1] == providers[i](query)
    ensures Gathered(definitions, providers, query, pages)
  {}

  lemma GatheredItem(definitions: map<Ref, Descriptor>, providers: seq<Provider>, query: Query, pages: seq<Page>, item: Descriptor)
    requires Gathered(definitions, providers, query, pages) && item.ref !in definitions
    ensures item in AllItems(pages) <==> Lists(providers, query, item)
  {
    InAllItems(pages, item);
    if j :| 0 <= j < |pages| && item in pages[j].items {
      assert pages[j - 1 + 1] == providers[j - 1](query);
    }
    if i :| 0 <= i < |providers| && item in providers[i](query).items {
      assert item in pages[i + 1].items;
    }
  }

  /** Merging meets a disagreement exactly when the providers conflict. */
  lemma DisagreeMeans(definitions: map<Ref, Descriptor>, providers: seq<Provider>, query: Query, pages: seq<Page>, ref: Ref)
    requires Gathered(definitions, providers, query, pages)
    ensures Disagree(definitions, AllItems(pages), ref) <==> Conflicting(definitions, providers, query, ref)
  {
    hide AllItems, Gathered, Lists;
    var items := AllItems(pages);
    forall item: Descriptor | item.ref !in definitions ensures item in items <==> Lists(providers, query, item) {
      GatheredItem(definitions, providers, query, pages, item);
    }
    if Conflicting(definitions, providers, query, ref) {
      var a, b :| Lists(providers, query, a) && Lists(providers, query, b) && a.ref == b.ref == ref && a != b;
      var k :| 0 <= k < |items| && items[k] == a;
      var l :| 0 <= l < |items| && items[l] == b;
      assert items[if k < l then k else l].ref == ref && items[if k < l then l else k].ref == ref;
    }
  }

  /** Where merging succeeds nothing conflicts. */
  lemma CombinedAgrees(definitions: map<Ref, Descriptor>, items: seq<Descriptor>, merged: map<Ref, Descriptor>)
    requires Combined(definitions, items, merged)
    ensures forall ref :: !Disagree(definitions, items, ref)
  {}

  lemma ItemsKeyed(definitions: map<Ref, Descriptor>, refs: seq<Ref>)
    requires Keyed(definitions) && forall r :: r in refs ==> r in definitions
    ensures forall item :: item in Items(definitions, refs) ==> item.ref in definitions
  {
    forall item | item in Items(definitions, refs) ensures item.ref in definitions {
      var k :| 0 <= k < |refs| && Items(definitions, refs)[k] == item;
      assert refs[k] in refs;
    }
  }

  /** When more remain, the merged page is not empty. */
  lemma FullWhenMore(d: Digests, definitions: map<Ref, Descriptor>, pages: seq<Page>, merged: map<Ref, Descriptor>, limit: nat)
    requires Injective(d) && limit >= 1 && Combined(definitions, AllItems(pages), merged)
    requires forall i :: 0 <= i < |pages| && pages[i].nextCursor.Some? ==> |pages[i].items| == limit
    requires |merged| > limit || exists i :: 0 <= i < |pages| && pages[i].nextCursor.Some?
    ensures |FirstN(d, merged.Keys, limit)| > 0
  {
    hide Line;
    if i :| 0 <= i < |pages| && pages[i].nextCursor.Some? {
      InAllItems(pages, pages[i].items[0]);
      var k :| 0 <= k < |AllItems(pages)| && AllItems(pages)[k] == pages[i].items[0];
      assert AllItems(pages)[k].ref in merged.Keys;
    }
  }

  lemma CursorFills(d: Digests, query: Query, after: Option<Position>, page: Page)
    requires ValidPage(d, query, after, page)
    ensures page.nextCursor.Some? ==> |page.items| == query.limit
  {}

  lemma UnionPage(d: Digests, union: map<Ref, Descriptor>, query: Query, selected: seq<Ref>, hasMore: bool, page: Page)
    requires Injective(d) && WellAsked(query)
    requires var left := Remaining(d, union, query.filters, PositionOf(query).value);
             && selected == FirstN(d, left, query.limit) && (hasMore <==> |left| > query.limit)
             && (hasMore ==> |selected| > 0) && forall r :: r in selected ==> r in union
    requires page == Page(Items(union, selected), if hasMore then Some(Cursor(query.filters, At(d, selected[|selected| - 1]))) else None)
    ensures page == PageOf(d, union, query)
  {
    hide Remaining;
  }

  /** Whatever a filter fixes is as it says. */
  ghost predicate Wanted(f: Filters, k: Key) {
    && (f.namespace.Some? ==> k.namespace == f.namespace.value)
    && (f.domain.Some? ==> k.domain == f.domain.value)
    && (f.kind.Some? ==> k.kind == f.kind.value)
  }

  /** What can be wrong with a page: too many resources, one that is not wanted or not behind the cursor, two
      that are not in order, or a cursor that comes before the page is full or does not name its last resource. */
  ghost predicate Offends(d: Digests, query: Query, page: Page) {
    || |page.items| > query.limit
    || (exists i :: 0 <= i < |page.items| && !Wanted(query.filters, page.items[i].ref.key))
    || (exists i :: 0 <= i < |page.items| && query.after.Some? && query.after.value.Cursor? &&
                    !Less(query.after.value.position, At(d, page.items[i].ref)))
    || (exists i, j :: 0 <= i < j < |page.items| && !Before(d, page.items[i].ref, page.items[j].ref))
    || (page.nextCursor.Some? && (|page.items| != query.limit || query.limit == 0 ||
          page.nextCursor != Some(Cursor(query.filters, At(d, page.items[|page.items| - 1].ref)))))
  }

  lemma OffendsInvalid(d: Digests, query: Query, page: Page)
    requires PositionOf(query).Ok?
    ensures Offends(d, query, page) <==> !ValidPage(d, query, PositionOf(query).value, page)
  {
    hide Less, At;
    assert forall i :: 0 <= i < |page.items| ==>
             (Wanted(query.filters, page.items[i].ref.key) <==> Matches(query.filters, page.items[i].ref.key));
  }

  /** The page holds wanted resources only, in order, and all of them come after the cursor. */
  ghost predicate Fitting(d: Digests, query: Query, page: Page) {
    && |page.items| <= query.limit
    && (forall i :: 0 <= i < |page.items| ==>
          && Wanted(query.filters, page.items[i].ref.key)
          && (query.after.Some? && query.after.value.Cursor? ==> Less(query.after.value.position, At(d, page.items[i].ref))))
    && (forall i, j :: 0 <= i < j < |page.items| ==> Before(d, page.items[i].ref, page.items[j].ref))
  }

  lemma GatheredValid(d: Digests, definitions: map<Ref, Descriptor>, providers: seq<Provider>, query: Query, pages: seq<Page>)
    requires Injective(d) && Keyed(definitions) && WellAsked(query) && Gathered(definitions, providers, query, pages)
    requires pages[0] == PageOf(d, definitions, query)
    requires forall i :: 0 <= i < |providers| ==> ValidPage(d, query, PositionOf(query).value, providers[i](query))
    ensures forall i :: 0 <= i < |pages| ==> ValidPage(d, query, PositionOf(query).value, pages[i])
  {
    hide ValidPage, PageOf;
    HonestPageValid(d, definitions, query);
    forall i | 0 <= i < |pages| ensures ValidPage(d, query, PositionOf(query).value, pages[i]) {
      if i > 0 {
        assert pages[i - 1 + 1] == providers[i - 1](query);
      }
    }
  }

  lemma MergedWanted(d: Digests, definitions: map<Ref, Descriptor>, query: Query, pages: seq<Page>, merged: map<Ref, Descriptor>, r: Ref)
    requires Keyed(definitions) && WellAsked(query) && Combined(definitions, AllItems(pages), merged) && r in merged
    requires forall i :: 0 <= i < |pages| ==> ValidPage(d, query, PositionOf(query).value, pages[i])
    ensures merged[r].ref == r && Matches(query.filters, r.key) && Beyond(d, PositionOf(query).value, r)
  {
    hide Matches, Beyond, Before, AllItems;
    var all := AllItems(pages);
    var k :| 0 <= k < |all| && all[k].ref == r;
    InAllItems(pages, all[k]);
    var i :| 0 <= i < |pages| && all[k] in pages[i].items;
    var m :| 0 <= m < |pages[i].items| && pages[i].items[m] == all[k];
  }

  lemma AssembledFits(d: Digests, definitions: map<Ref, Descriptor>, query: Query, pages: seq<Page>, merged: map<Ref, Descriptor>, page: Page)
    requires Injective(d) && Keyed(definitions) && WellAsked(query) && Combined(definitions, AllItems(pages), merged)
    requires IsAssembled(d, query, pages, merged, page)
    requires forall i :: 0 <= i < |pages| ==> ValidPage(d, query, PositionOf(query).value, pages[i])
    ensures Fitting(d, query, page)
  {
    hide Combined, ValidPage, AllItems, Before, Line;
    var selected := FirstN(d, merged.Keys, query.limit);
    forall i | 0 <= i < |page.items| ensures page.items[i].ref == selected[i] && selected[i] in merged {
      assert selected[i] in selected;
      MergedWanted(d, definitions, query, pages, merged, selected[i]);
    }
    forall i | 0 <= i < |page.items| ensures Wanted(query.filters, page.items[i].ref.key) && Beyond(d, PositionOf(query).value, page.items[i].ref) {
      MergedWanted(d, definitions, query, pages, merged, selected[i]);
    }
    forall i, j | 0 <= i < j < |page.items| ensures Before(d, page.items[i].ref, page.items[j].ref) {
      LineSorted(d, merged.Keys, i, j);
    }
  }

  /** `browse`. Errors: a cursor that is damaged or belongs to another filter, the first provider whose
      page breaks the protocol, a disagreement about an undeclared resource; each exactly when there is
      one and none of the earlier kinds. With honest providers that agree, the answer is the page of the
      union. */
  method Browse(d: Digests, definitions: map<Ref, Descriptor>, providers: seq<Provider>, query: Query) returns (r: Result<Page, Error>)
    requires Injective(d) && Keyed(definitions) && query.limit >= 1
    ensures r == Err(InvalidCursor) <==>
              query.after.Some? && (query.after.value.Corrupt? || query.after.value.filters != query.filters)
    ensures r == Err(InvalidCursor) <==> PositionOf(query).Err?
    ensures r.Ok? ==> Fitting(d, query, r.value)
    ensures r.Err? && r.error.InvalidPage? ==>
              && r.error.provider < |providers| && PositionOf(query).Ok?
              && !ValidPage(d, query, PositionOf(query).value, providers[r.error.provider](query))
              && forall i :: 0 <= i < r.error.provider ==> ValidPage(d, query, PositionOf(query).value, providers[i](query))
    ensures r.Err? && r.error.InvalidPage? ==>
              && r.error.provider < |providers| && Offends(d, query, providers[r.error.provider](query))
              && forall i :: 0 <= i < r.error.provider ==> !Offends(d, query, providers[i](query))
    ensures r.Ok? || r.error.Disagreement? ==> forall i :: 0 <= i < |providers| ==> !Offends(d, query, providers[i](query))
    ensures r.Err? && r.error.Disagreement? ==> Conflicting(definitions, providers, query, r.error.ref)
    ensures (r.Ok? || r.error.Disagreement?) <==>
              && PositionOf(query).Ok?
              && forall i :: 0 <= i < |providers| ==> ValidPage(d, query, PositionOf(query).value, providers[i](query))
    ensures r.Ok? ==> forall ref :: !Conflicting(definitions, providers, query, ref)
    ensures forall populations, union :: AllHonest(d, providers, populations) && IsUnion([definitions] + populations, union) && WellAsked(query) ==>
              r == Ok(PageOf(d, union, query))
  {
    hide Offends, Fitting, ValidPage, FirstN, Combined, Disagree, Remaining, IsUnion, PageOf, AllHonest, Conflicting, Gathered, PagesOf, AllItems, Filled;
    var position := PositionOf(query);
    if position.Err? {
      return Err(position.error);
    }
    forall i | 0 <= i < |providers|
      ensures Offends(d, query, providers[i](query)) <==> !ValidPage(d, query, position.value, providers[i](query))
    {
      OffendsInvalid(d, query, providers[i](query));
    }
    var after := position.value;
    var eligible := Remaining(d, definitions, query.filters, after);
    StaticWithin(d, definitions, query.filters, after, query.limit);
    var first := Smallest(d, eligible, query.limit);
    var own := Page(Items(definitions, first),
                    if |eligible| > query.limit then Some(Cursor(query.filters, At(d, first[query.limit - 1]))) else None);
    StaticPage(d, definitions, query, own);
    ItemsKeyed(definitions, first);
    var collected := Collect(d, definitions, providers, query, own);
    if collected.Err? {
      forall populations | AllHonest(d, providers, populations) ensures false {
        HonestValid(d, providers, populations, query, collected.error);
      }
      return Err(InvalidPage(collected.error));
    }
    var pages := collected.value;
    forall ref ensures Disagree(definitions, AllItems(pages), ref) <==> Conflicting(definitions, providers, query, ref) {
      DisagreeMeans(definitions, providers, query, pages, ref);
    }
    forall populations | AllHonest(d, providers, populations) ensures PagesOf(d, [definitions] + populations, query, pages) {
      HonestPages(d, definitions, providers, populations, query, pages);
    }
    var merged := Merge(definitions, pages);
    if merged.Err? {
      forall populations, union | AllHonest(d, providers, populations) && IsUnion([definitions] + populations, union) ensures false {
        UnionAgrees(d, [definitions] + populations, query, pages, union, merged.error);
      }
      return Err(Disagreement(merged.error));
    }
    CombinedAgrees(definitions, AllItems(pages), merged.value);
    var page := Assembled(d, definitions, query, pages, merged.value);
    GatheredValid(d, definitions, providers, query, pages);
    AssembledFits(d, definitions, query, pages, merged.value, page);
    r := Ok(page);
    forall populations, union | AllHonest(d, providers, populations) && IsUnion([definitions] + populations, union)
      ensures r == Ok(PageOf(d, union, query))
    {
      MergedPage(d, [definitions] + populations, query, pages, union, merged.value);
      AssembledPage(d, query, pages, union, merged.value, page);
    }
  }

  /** Every page with a cursor is full. */
  ghost predicate Filled(pages: seq<Page>, limit: nat) {
    forall i :: 0 <= i < |pages| && pages[i].nextCursor.Some? ==> |pages[i].items| == limit
  }

  /** The pages of all providers behind the static one, or the first provider whose page breaks the protocol. */
  method Collect(d: Digests, ghost definitions: map<Ref, Descriptor>, providers: seq<Provider>, query: Query, own: Page)
    returns (r: Result<seq<Page>, nat>)
    requires PositionOf(query).Ok? && (own.nextCursor.Some? ==> |own.items| == query.limit)
    requires forall item :: item in own.items ==> item.ref in definitions
    ensures r.Ok? ==> forall i :: 0 <= i < |providers| ==> ValidPage(d, query, PositionOf(query).value, providers[i](query))
    ensures r.Ok? ==> r.value != [] && r.value[0] == own && Gathered(definitions, providers, query, r.value) && Filled(r.value, query.limit)
    ensures r.Err? ==>
              && r.error < |providers| && !ValidPage(d, query, PositionOf(query).value, providers[r.error](query))
              && forall i :: 0 <= i < r.error ==> ValidPage(d, query, PositionOf(query).value, providers[i](query))
  {
    hide ValidPage, PositionOf;
    var after := PositionOf(query).value;
    var pages := [own];
    for i := 0 to |providers|
      invariant |pages| == i + 1 && pages[0] == own && Filled(pages, query.limit)
      invariant forall j :: 0 <= j < i ==> pages[j + 1] == providers[j](query) && ValidPage(d, query, after, providers[j](query))
    {
      var page := providers[i](query);
      if !ValidPage(d, query, after, page) {
        return Err(i);
      }
      CursorFills(d, query, after, page);
      pages := pages + [page];
    }
    PagesGathered(definitions, providers, query, pages);
    return Ok(pages);
  }

  lemma HonestValid(d: Digests, providers: seq<Provider>, populations: seq<map<Ref, Descriptor>>, query: Query, i: nat)
    requires Injective(d) && WellAsked(query) && AllHonest(d, providers, populations) && i < |providers|
    ensures ValidPage(d, query, PositionOf(query).value, providers[i](query))
  {
    hide ValidPage, PageOf, Honest;
    HonestAnswer(d, providers[i], populations[i], query);
    HonestPageValid(d, populations[i], query);
  }

  /** With honest providers every page is what its population owes. */
  lemma HonestPages(d: Digests, definitions: map<Ref, Descriptor>, providers: seq<Provider>, populations: seq<map<Ref, Descriptor>>,
      query: Query, pages: seq<Page>)
    requires Injective(d) && WellAsked(query) && Keyed(definitions) && AllHonest(d, providers, populations)
    requires Gathered(definitions, providers, query, pages) && pages[0] == PageOf(d, definitions, query)
    ensures PagesOf(d, [definitions] + populations, query, pages)
  {
    hide PageOf, Honest, Keyed;
    forall i | 0 <= i < |pages|
      ensures Keyed(([definitions] + populations)[i]) && pages[i] == PageOf(d, ([definitions] + populations)[i], query)
    {
      if i > 0 {
        HonestAnswer(d, providers[i - 1], populations[i - 1], query);
        assert pages[i - 1 + 1] == providers[i - 1](query);
      }
    }
  }

  /** The answer made of the merged items: the first of them in order, and a cursor if more remain. */
  ghost predicate IsAssembled(d: Digests, query: Query, pages: seq<Page>, merged: map<Ref, Descriptor>, page: Page)
    requires Injective(d)
  {
    var selected := FirstN(d, merged.Keys, query.limit);
    var hasMore := |merged| > query.limit || exists i :: 0 <= i < |pages| && pages[i].nextCursor.Some?;
    && (forall r :: r in selected ==> r in merged) && (hasMore ==> |selected| > 0)
    && page == Page(Items(merged, selected), if hasMore then Some(Cursor(query.filters, At(d, selected[|selected| - 1]))) else None)
  }

  method Assembled(d: Digests, ghost definitions: map<Ref, Descriptor>, query: Query, pages: seq<Page>, merged: map<Ref, Descriptor>)
    returns (page: Page)
    requires Injective(d) && query.limit >= 1 && Combined(definitions, AllItems(pages), merged) && Filled(pages, query.limit)
    ensures IsAssembled(d, query, pages, merged, page)
  {
    hide FirstN, Combined, AllItems;
    var keys := merged.Keys;
    var selected := Smallest(d, keys, query.limit);
    FirstWithin(d, keys, query.limit);
    assert |keys| == |merged|;
    var hasMore := |merged| > query.limit || exists i | 0 <= i < |pages| :: pages[i].nextCursor.Some?;
    if hasMore {
      FullWhenMore(d, definitions, pages, merged, query.limit);
    }
    return Page(Items(merged, selected), if hasMore then Some(Cursor(query.filters, At(d, selected[|selected| - 1]))) else None);
  }

  lemma AssembledPage(d: Digests, query: Query, pages: seq<Page>, union: map<Ref, Descriptor>, merged: map<Ref, Descriptor>, page: Page)
    requires Injective(d) && WellAsked(query) && IsAssembled(d, query, pages, merged, page)
    requires var left := Remaining(d, union, query.filters, PositionOf(query).value);
             var first := FirstN(d, merged.Keys, query.limit);
             && first == FirstN(d, left, query.limit)
             && (forall r :: r in first ==> r in merged && r in union && merged[r] == union[r])
             && (|left| > query.limit <==> |merged| > query.limit || exists i :: 0 <= i < |pages| && pages[i].nextCursor.Some?)
    ensures page == PageOf(d, union, query)
  {
    hide FirstN, Remaining, PageOf;
    var selected := FirstN(d, merged.Keys, query.limit);
    ItemsSame(merged, union, selected);
    UnionPage(d, union, query, selected, page.nextCursor.Some?, page);
  }

  // ---------------------------------------------------------------- following the cursors

  /** After a page with a cursor, what remains is what remained without that page. */
  lemma NextPage(d: Digests, union: map<Ref, Descriptor>, filters: Filters, after: Option<Position>, n: nat)
    requires Injective(d) && n >= 1 && |Remaining(d, union, filters, after)| > n
    ensures var left := Remaining(d, union, filters, after);
            var rest := Remaining(d, union, filters, Some(At(d, FirstN(d, left, n)[n - 1])));
            Line(d, left) == FirstN(d, left, n) + Line(d, rest) && |rest| == |left| - n
  {
    hide Matches, Line, FirstN;
    var left := Remaining(d, union, filters, after);
    LineSplit(d, left, n);
    var last := FirstN(d, left, n)[n - 1];
    FirstWithin(d, left, n);
    assert last in left;
    var rest := Remaining(d, union, filters, Some(At(d, last)));
    assert rest == set r | r in left && Before(d, last, r);
  }

  lemma ItemsAppend(population: map<Ref, Descriptor>, a: seq<Ref>, b: seq<Ref>)
    requires forall r :: r in a + b ==> r in population
    ensures (forall r :: r in a ==> r in population) && (forall r :: r in b ==> r in population)
    ensures Items(population, a + b) == Items(population, a) + Items(population, b)
  {
    forall r | r in a ensures r in population {
      assert r in a + b;
    }
    forall r | r in b ensures r in population {
      assert r in a + b;
    }
  }

  lemma LineItems(d: Digests, population: map<Ref, Descriptor>, filters: Filters, after: Option<Position>)
    requires Injective(d)
    ensures forall r :: r in Line(d, Remaining(d, population, filters, after)) ==> r in population
  {
    forall r | r in Line(d, Remaining(d, population, filters, after)) ensures r in population {
      var k :| 0 <= k < |Line(d, Remaining(d, population, filters, after))| && Line(d, Remaining(d, population, filters, after))[k] == r;
      LineWithin(d, Remaining(d, population, filters, after), k);
    }
  }

  /** The parts of an owed page. */
  lemma PageMeans(d: Digests, population: map<Ref, Descriptor>, query: Query, left: set<Ref>)
    requires Injective(d) && WellAsked(query) && left == Remaining(d, population, query.filters, PositionOf(query).value)
    ensures var page := PageOf(d, population, query);
            var first := FirstN(d, left, query.limit);
            && (forall r :: r in first ==> r in population)
            && page.items == Items(population, first)
            && (page.nextCursor.None? <==> |left| <= query.limit)
            && (page.nextCursor.None? ==> first == Line(d, left))
            && (page.nextCursor.Some? ==> page.nextCursor.value == Cursor(query.filters, At(d, first[query.limit - 1])))
  {
    hide Line;
    FirstWithin(d, left, query.limit);
    assert Line(d, left)[..|left|] == Line(d, left);
  }

  /** Everything a population owes beyond a position, in order. */
  ghost function Owed(d: Digests, union: map<Ref, Descriptor>, filters: Filters, position: Option<Position>): seq<Descriptor>
    requires Injective(d)
  {
    LineItems(d, union, filters, position);
    Items(union, Line(d, Remaining(d, union, filters, position)))
  }

  /** One page and what is owed after it make up what was owed before it. */
  lemma OwedStep(d: Digests, union: map<Ref, Descriptor>, query: Query, position: Option<Position>)
    requires Injective(d) && query.limit >= 1 && PositionOf(query) == Ok(position)
    ensures var page := PageOf(d, union, query);
            match page.nextCursor
            case None => page.items == Owed(d, union, query.filters, position)
            case Some(cursor) =>
              && cursor.Cursor? && cursor.filters == query.filters
              && Owed(d, union, query.filters, position) == page.items + Owed(d, union, query.filters, Some(cursor.position))
              && |Remaining(d, union, query.filters, Some(cursor.position))| < |Remaining(d, union, query.filters, position)|
  {
    hide Line, FirstN, Remaining, PageOf, Matches, Beyond;
    var left := Remaining(d, union, query.filters, position);
    PageMeans(d, union, query, left);
    LineItems(d, union, query.filters, position);
    if |left| > query.limit {
      NextPage(d, union, query.filters, position, query.limit);
      var first := FirstN(d, left, query.limit);
      var rest := Remaining(d, union, query.filters, Some(At(d, first[query.limit - 1])));
      ItemsAppend(union, first, Line(d, rest));
    }
  }

  /** Asking on until no cursor comes back, with whatever page sizes, enumerates every matching
      resource of the union exactly once in order. */
  method BrowseAll(d: Digests, definitions: map<Ref, Descriptor>, providers: seq<Provider>, filters: Filters, sizes: nat -> nat,
      ghost populations: seq<map<Ref, Descriptor>>, ghost union: map<Ref, Descriptor>)
    returns (found: seq<Descriptor>)
    requires Injective(d) && Keyed(definitions) && forall n :: sizes(n) >= 1
    requires AllHonest(d, providers, populations) && IsUnion([definitions] + populations, union)
    ensures found == Owed(d, union, filters, None)
  {
    hide Offends, Fitting, AllHonest, IsUnion, FirstN, Line, Remaining, Injective, Keyed, PageOf, ValidPage, Items, Before, Owed;
    found := [];
    var after: Option<Cursor> := None;
    ghost var position: Option<Position> := None;
    var n := 0;
    while true
      invariant after == if position.None? then None else Some(Cursor(filters, position.value))
      invariant Owed(d, union, filters, None) == found + Owed(d, union, filters, position)
      decreases |Remaining(d, union, filters, position)|
    {
      var query := Query(filters, sizes(n), after);
      var answer := Browse(d, definitions, providers, query);
      assert answer == Ok(PageOf(d, union, query));
      OwedStep(d, union, query, position);
      found := found + answer.value.items;
      after := answer.value.nextCursor;
      if after.None? {
        return;
      }
      position := Some(after.value.position);
      n := n + 1;
    }
  }

  /** In order and exactly once: positions strictly increase along the enumeration, and it holds
      precisely the matching resources of the union. */
  lemma EnumeratesOnce(d: Digests, union: map<Ref, Descriptor>, filters: Filters)
    requires Injective(d) && Keyed(union)
    ensures var all := Line(d, Remaining(d, union, filters, None));
            && (forall r :: r in all <==> r in union && Wanted(filters, r.key))
            && (forall i, j :: 0 <= i < j < |all| ==> Before(d, all[i], all[j]) && all[i] != all[j])
  {
    hide Before, Line;
    var left := Remaining(d, union, filters, None);
    var all := Line(d, left);
    FirstWithin(d, left, |left|);
    assert all[..|left|] == all;
    forall i, j | 0 <= i < j < |all| ensures Before(d, all[i], all[j]) && all[i] != all[j] {
      LineSorted(d, left, i, j);
      Trichotomy(d, all[i], all[j]);
    }
  }
}
