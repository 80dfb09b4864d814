/** The incremental memory policy (src/aurora_bot/memory_model/tgn.py, state.py and checkpoint.py):
    a cached projection of one interaction prefix that must agree with projecting from nothing.
    Tensors and scores are opaque; the network is any family of functions on them. */
module TgnPolicy {
  import opened Common

  datatype NodeKey = NodeKey(kind: string, identity: string)

  datatype Node = Node(key: NodeKey, text: string)

  datatype Interaction = Interaction(cursor: nat, recordedAt: int, source: Node, target: Node, relation: string, value: int)

  datatype Candidate = Candidate(memoryId: string, text: string, occurredAt: int, recordedAt: int, baseline: string)

  datatype Request = Request(query: string, focus: seq<string>, observedAt: int, candidates: seq<Candidate>, interactions: seq<Interaction>)

  /** The learned functions. `gather` stands for the mean over the neighbours in key order, `age` for
      the scaled interval between two times. */
  datatype Network<!T, !S> = Network(
    zero: T,
    encode: Node -> T,
    age: (int, int) -> T,
    message: (T, T, T, T, string, T, T, int) -> T,
    recurrent: (T, T) -> T,
    gather: map<NodeKey, T> -> T,
    embedding: (T, T, T, T) -> T,
    recommend: (Request, seq<T>, Candidate, T) -> S,
    finite: T -> bool,
    finiteScore: S -> bool)

  /** The value of a graph state: everything but its feature cache. */
  datatype Graph<T> = Graph(
    memories: map<NodeKey, T>,
    nodes: map<NodeKey, Node>,
    updatedAt: map<NodeKey, int>,
    neighbors: map<NodeKey, set<NodeKey>>)

  /** Interactions come in the order in which they were learnt. */
  predicate Ordered(events: seq<Interaction>) {
    forall i, j | 0 <= i < j < |events| :: events[i].cursor <= events[j].cursor && events[i].recordedAt <= events[j].recordedAt
  }

  predicate ValidNode(node: Node) {
    node.key.kind in {"memory", "scope", "goal", "entity"} && exists i | 0 <= i < |node.key.identity| :: node.key.identity[i] != ' '
  }

  /** What the constructors of interactions and requests guarantee, as far as it matters here. */
  predicate WellFormed(events: seq<Interaction>) {
    Ordered(events) && forall i | 0 <= i < |events| :: ValidNode(events[i].source) && ValidNode(events[i].target)
  }

  // ---------------------------------------------------------------- projecting on values

  function Empty<T>(): Graph<T> {
    Graph(map[], map[], map[], map[])
  }

  function Memory<T, S>(net: Network<T, S>, g: Graph<T>, key: NodeKey): T {
    if key in g.memories then g.memories[key] else net.zero
  }

  function Neighbors<T>(g: Graph<T>, key: NodeKey): set<NodeKey> {
    if key in g.neighbors then g.neighbors[key] else {}
  }

  function Updated<K, V>(m: map<K, V>, key: K, default: V): V {
    if key in m then m[key] else default
  }

  function Noted<T>(g: Graph<T>, node: Node, at: int): Graph<T> {
    g.(nodes := if node.text != "" || node.key !in g.nodes then g.nodes[node.key := node] else g.nodes,
       updatedAt := g.updatedAt[node.key := at])
  }

  function Linked<T>(g: Graph<T>, a: NodeKey, b: NodeKey): Graph<T> {
    g.(neighbors := g.neighbors[a := Neighbors(g, a) + {b}])
  }

  function SourceMessage<T, S>(net: Network<T, S>, g: Graph<T>, e: Interaction): T {
    net.message(Memory(net, g, e.source.key), Memory(net, g, e.target.key), net.encode(e.source), net.encode(e.target), e.relation,
                net.age(e.recordedAt, Updated(g.updatedAt, e.source.key, e.recordedAt)),
                net.age(e.recordedAt, Updated(g.updatedAt, e.target.key, e.recordedAt)), e.value)
  }

  function TargetMessage<T, S>(net: Network<T, S>, g: Graph<T>, e: Interaction): T {
    SourceMessage(net, g, e.(source := e.target, target := e.source))
  }

  function MemoriesAfter<T, S>(net: Network<T, S>, g: Graph<T>, e: Interaction): map<NodeKey, T> {
    var first := g.memories[e.source.key := net.recurrent(SourceMessage(net, g, e), Memory(net, g, e.source.key))];
    if e.target.key == e.source.key then first
    else first[e.target.key := net.recurrent(TargetMessage(net, g, e), Memory(net, g, e.target.key))]
  }

  function LinksAfter<T>(g: Graph<T>, a: NodeKey, b: NodeKey): Graph<T> {
    if a == b then g else Linked(Linked(g, a, b), b, a)
  }

  /** One interaction: both messages come from the state before it. */
  function After<T, S>(net: Network<T, S>, g: Graph<T>, e: Interaction): Graph<T> {
    var moved := LinksAfter(g, e.source.key, e.target.key).(memories := MemoriesAfter(net, g, e));
    Noted(Noted(moved, e.source, e.recordedAt), e.target, e.recordedAt)
  }

  function Projected<T, S>(net: Network<T, S>, g: Graph<T>, events: seq<Interaction>): Graph<T> {
    if events == [] then g else After(net, Projected(net, g, events[..|events| - 1]), events[|events| - 1])
  }

  function NodeOf<T>(g: Graph<T>, node: Node): Node {
    if node.key in g.nodes then g.nodes[node.key] else node
  }

  function Embedded<T, S>(net: Network<T, S>, g: Graph<T>, node: Node, observedAt: int): T
    requires forall k :: k in Neighbors(g, node.key) ==> k in g.memories
  {
    var around := map k | k in Neighbors(g, node.key) :: g.memories[k];
    net.embedding(Memory(net, g, node.key), if around == map[] then net.zero else net.gather(around),
                  net.encode(NodeOf(g, node)), net.age(observedAt, Updated(g.updatedAt, node.key, observedAt)))
  }

  function GoalNode(identity: string): Node {
    Node(NodeKey("goal", identity), identity)
  }

  function CandidateNode(c: Candidate): Node {
    Node(NodeKey("memory", c.memoryId), c.text)
  }

  ghost predicate Linkage<T>(g: Graph<T>, k: NodeKey, o: NodeKey) {
    k in g.nodes && o in g.nodes && o != k && k in Neighbors(g, o)
  }

  /** Bookkeeping of a projected graph: one entry per node everywhere, links both ways, none to itself. */
  ghost predicate Sound<T>(g: Graph<T>) {
    && g.memories.Keys == g.nodes.Keys == g.updatedAt.Keys
    && (forall k :: k in g.nodes ==> g.nodes[k].key == k && ValidNode(g.nodes[k]))
    && (forall k, o :: o in Neighbors(g, k) ==> Linkage(g, k, o))
  }

  function Goals<T, S>(net: Network<T, S>, request: Request, g: Graph<T>, n: nat): (goals: seq<T>)
    requires Sound(g) && n <= |request.focus|
    ensures |goals| == n
  {
    if n == 0 then []
    else Goals(net, request, g, n - 1) + [Embedded(net, g, GoalNode(request.focus[n - 1]), request.observedAt)]
  }

  function Scores<T, S>(net: Network<T, S>, request: Request, g: Graph<T>, n: nat): (scores: seq<S>)
    requires Sound(g) && n <= |request.candidates|
    ensures |scores| == n
  {
    if n == 0 then []
    else
      var c := request.candidates[n - 1];
      Scores(net, request, g, n - 1)
      + [net.recommend(request, Goals(net, request, g, |request.focus|), c, Embedded(net, g, CandidateNode(c), request.observedAt))]
  }

  /** `rank`, which leaves the graph as it is. */
  function Ranked<T, S>(net: Network<T, S>, request: Request, g: Graph<T>): seq<S>
    requires Sound(g)
  {
    Scores(net, request, g, |request.candidates|)
  }

  lemma LinksShape<T>(g: Graph<T>, a: NodeKey, b: NodeKey, k: NodeKey)
    ensures Neighbors(LinksAfter(g, a, b), k)
         == Neighbors(g, k) + (if a != b && k == a then {b} else {}) + (if a != b && k == b then {a} else {})
  {}

  lemma NotedShape<T>(g: Graph<T>, node: Node, at: int)
    ensures var after := Noted(g, node, at);
            && after.memories == g.memories && after.neighbors == g.neighbors
            && after.nodes.Keys == g.nodes.Keys + {node.key}
            && after.updatedAt == g.updatedAt[node.key := at]
            && forall k :: k in after.nodes ==> (k in g.nodes && after.nodes[k] == g.nodes[k]) || (k == node.key && after.nodes[k] == node)
  {}

  lemma LinksOnly<T>(g: Graph<T>, a: NodeKey, b: NodeKey)
    ensures LinksAfter(g, a, b) == g.(neighbors := LinksAfter(g, a, b).neighbors)
  {}

  /** What one interaction does to each part of a graph. */
  lemma AfterShape<T, S>(net: Network<T, S>, g: Graph<T>, e: Interaction)
    ensures var after := After(net, g, e);
            && after.memories == MemoriesAfter(net, g, e) && after.memories.Keys == g.memories.Keys + {e.source.key, e.target.key}
            && after.updatedAt == g.updatedAt[e.source.key := e.recordedAt][e.target.key := e.recordedAt]
            && after.neighbors == LinksAfter(g, e.source.key, e.target.key).neighbors
            && NodesAfter(g.nodes, e, after.nodes)
  {
    hide MemoriesAfter, Noted, LinksAfter;
    LinksOnly(g, e.source.key, e.target.key);
    MemoriesKeys(net, g, e);
    var moved := LinksAfter(g, e.source.key, e.target.key).(memories := MemoriesAfter(net, g, e));
    NotedShape(moved, e.source, e.recordedAt);
    NotedShape(Noted(moved, e.source, e.recordedAt), e.target, e.recordedAt);
  }

  /** Both ends have a node; every node is an earlier one or one of the ends. */
  ghost predicate NodesAfter(before: map<NodeKey, Node>, e: Interaction, after: map<NodeKey, Node>) {
    && after.Keys == before.Keys + {e.source.key, e.target.key}
    && forall k :: k in after ==> (k in before && after[k] == before[k]) || (after[k] in {e.source, e.target} && after[k].key == k)
  }

  lemma MemoriesKeys<T, S>(net: Network<T, S>, g: Graph<T>, e: Interaction)
    ensures MemoriesAfter(net, g, e).Keys == g.memories.Keys + {e.source.key, e.target.key}
  {}

  lemma NeighborsAfter<T, S>(net: Network<T, S>, g: Graph<T>, e: Interaction, k: NodeKey)
    ensures Neighbors(After(net, g, e), k)
         == Neighbors(g, k) + (if e.source.key != e.target.key && k == e.source.key then {e.target.key} else {})
                            + (if e.source.key != e.target.key && k == e.target.key then {e.source.key} else {})
  {
    hide After, LinksAfter;
    AfterShape(net, g, e);
    LinksShape(g, e.source.key, e.target.key, k);
    assert Neighbors(After(net, g, e), k) == Neighbors(LinksAfter(g, e.source.key, e.target.key), k);
  }

  lemma SoundAfter<T, S>(net: Network<T, S>, g: Graph<T>, e: Interaction)
    requires Sound(g) && ValidNode(e.source) && ValidNode(e.target)
    ensures Sound(After(net, g, e))
  {
    hide After, MemoriesAfter, LinksAfter, ValidNode, Neighbors, Linkage;
    AfterShape(net, g, e);
    var after := After(net, g, e);
    assert after.updatedAt.Keys == g.updatedAt.Keys + {e.source.key, e.target.key};
    forall k | k in after.nodes ensures after.nodes[k].key == k && ValidNode(after.nodes[k]) {}
    forall k, o | o in Neighbors(After(net, g, e), k)
      ensures Linkage(After(net, g, e), k, o)
    {
      LinkageAfter(net, g, e, k, o);
    }
  }

  lemma LinkageAfter<T, S>(net: Network<T, S>, g: Graph<T>, e: Interaction, k: NodeKey, o: NodeKey)
    requires forall a, b :: b in Neighbors(g, a) ==> Linkage(g, a, b)
    requires o in Neighbors(After(net, g, e), k)
    ensures Linkage(After(net, g, e), k, o)
  {
    hide After, MemoriesAfter, LinksAfter, Neighbors;
    AfterShape(net, g, e);
    NeighborsAfter(net, g, e, k);
    NeighborsAfter(net, g, e, o);
    if o in Neighbors(g, k) {
      assert Linkage(g, k, o);
    }
  }

  // ---------------------------------------------------------------- one interaction, read from the graph before it

  /** What an end remembers, and how long it has been silent, before the interaction. */
  ghost function Recalled<T, S>(net: Network<T, S>, g: Graph<T>, node: Node): T {
    if node.key in g.memories then g.memories[node.key] else net.zero
  }

  ghost function Silence<T, S>(net: Network<T, S>, g: Graph<T>, node: Node, at: int): T {
    net.age(at, if node.key in g.updatedAt then g.updatedAt[node.key] else at)
  }

  /** What one end makes of the interaction: its own side comes first, and both sides are those of `g`. */
  ghost function Learnt<T, S>(net: Network<T, S>, g: Graph<T>, e: Interaction, self: Node, other: Node): T {
    net.recurrent(
      net.message(Recalled(net, g, self), Recalled(net, g, other), net.encode(self), net.encode(other), e.relation,
                  Silence(net, g, self, e.recordedAt), Silence(net, g, other, e.recordedAt), e.value),
      Recalled(net, g, self))
  }

  /** The keys get an entry; every other entry stays as it is. */
  ghost predicate OnlyAt<V>(before: map<NodeKey, V>, after: map<NodeKey, V>, a: NodeKey, b: NodeKey) {
    && after.Keys == before.Keys + {a, b}
    && forall k :: k in before && k != a && k != b ==> after[k] == before[k]
  }

  /** A node with text replaces what is stored under its key, a node without text only fills a gap. */
  ghost predicate Keeps<T>(g: Graph<T>, node: Node, stored: Node) {
    stored == if node.text != "" then node else if node.key in g.nodes then g.nodes[node.key] else node
  }

  ghost predicate LinkedTo<T>(g: Graph<T>, k: NodeKey, o: NodeKey) {
    k in g.neighbors && o in g.neighbors[k]
  }

  /** The two are the different ends of the interaction. */
  ghost predicate MetAs(e: Interaction, k: NodeKey, o: NodeKey) {
    k != o && ((k == e.source.key && o == e.target.key) || (k == e.target.key && o == e.source.key))
  }

  /** `after` is what the interaction makes of `g`. */
  ghost predicate Meets<T, S>(net: Network<T, S>, g: Graph<T>, e: Interaction, after: Graph<T>) {
    var a, b := e.source, e.target;
    && OnlyAt(g.memories, after.memories, a.key, b.key)
    && OnlyAt(g.updatedAt, after.updatedAt, a.key, b.key)
    && OnlyAt(g.nodes, after.nodes, a.key, b.key)
    && after.updatedAt[a.key] == after.updatedAt[b.key] == e.recordedAt
    && after.memories[a.key] == Learnt(net, g, e, a, b)
    && (a.key != b.key ==>
          && after.memories[b.key] == Learnt(net, g, e, b, a)
          && Keeps(g, a, after.nodes[a.key]) && Keeps(g, b, after.nodes[b.key]))
    && (a.key == b.key ==> if b.text != "" then after.nodes[b.key] == b else Keeps(g, a, after.nodes[a.key]))
    && forall k, o :: LinkedTo(after, k, o) <==> LinkedTo(g, k, o) || MetAs(e, k, o)
  }

  lemma AfterMeets<T, S>(net: Network<T, S>, g: Graph<T>, e: Interaction)
    ensures Meets(net, g, e, After(net, g, e))
  {
    hide After, LinksAfter, MemoriesAfter, NodesAfter;
    AfterShape(net, g, e);
    LearntMemories(net, g, e);
    KeptNodes(net, g, e);
    MetLinks(net, g, e);
  }

  lemma MetLinks<T, S>(net: Network<T, S>, g: Graph<T>, e: Interaction)
    ensures forall k, o :: LinkedTo(After(net, g, e), k, o) <==>
                           LinkedTo(g, k, o) || MetAs(e, k, o)
  {
    hide After;
    forall k, o ensures LinkedTo(After(net, g, e), k, o) <==> LinkedTo(g, k, o) || MetAs(e, k, o) {
      NeighborsAfter(net, g, e, k);
      assert LinkedTo(g, k, o) <==> o in Neighbors(g, k);
      assert LinkedTo(After(net, g, e), k, o) <==> o in Neighbors(After(net, g, e), k);
    }
  }

  lemma LearntMemories<T, S>(net: Network<T, S>, g: Graph<T>, e: Interaction)
    ensures OnlyAt(g.memories, MemoriesAfter(net, g, e), e.source.key, e.target.key)
    ensures MemoriesAfter(net, g, e)[e.source.key] == Learnt(net, g, e, e.source, e.target)
    ensures e.source.key != e.target.key ==> MemoriesAfter(net, g, e)[e.target.key] == Learnt(net, g, e, e.target, e.source)
  {}

  lemma KeptNodes<T, S>(net: Network<T, S>, g: Graph<T>, e: Interaction)
    ensures var a, b, after := e.source, e.target, After(net, g, e);
            && OnlyAt(g.nodes, after.nodes, a.key, b.key)
            && (a.key != b.key ==> Keeps(g, a, after.nodes[a.key]) && Keeps(g, b, after.nodes[b.key]))
            && (a.key == b.key ==> if b.text != "" then after.nodes[b.key] == b else Keeps(g, a, after.nodes[a.key]))
  {
    hide MemoriesAfter, LinksAfter;
    LinksOnly(g, e.source.key, e.target.key);
  }

  /** The reading leaves nothing open. */
  lemma MeetsDecides<T, S>(net: Network<T, S>, g: Graph<T>, e: Interaction, x: Graph<T>, y: Graph<T>)
    requires Meets(net, g, e, x) && Meets(net, g, e, y)
    ensures Same(x, y)
  {
    hide Learnt, MetAs, LinkedTo, OnlyAt, Same;
    var a, b := e.source.key, e.target.key;
    AtDecides(g.memories, x.memories, y.memories, a, b);
    AtDecides(g.updatedAt, x.updatedAt, y.updatedAt, a, b);
    AtDecides(g.nodes, x.nodes, y.nodes, a, b);
    SameLinks(x, y);
    assert Same(x, y) by { SameParts(x, y); }
  }

  lemma AtDecides<V>(before: map<NodeKey, V>, x: map<NodeKey, V>, y: map<NodeKey, V>, a: NodeKey, b: NodeKey)
    requires OnlyAt(before, x, a, b) && OnlyAt(before, y, a, b) && x[a] == y[a] && x[b] == y[b]
    ensures x == y
  {}

  lemma SameParts<T>(x: Graph<T>, y: Graph<T>)
    requires x.memories == y.memories && x.nodes == y.nodes && x.updatedAt == y.updatedAt
    requires forall k :: Neighbors(x, k) == Neighbors(y, k)
    ensures Same(x, y)
  {}

  lemma SameLinks<T>(x: Graph<T>, y: Graph<T>)
    requires forall k, o :: LinkedTo(x, k, o) <==> LinkedTo(y, k, o)
    ensures forall k :: Neighbors(x, k) == Neighbors(y, k)
  {
    forall k ensures Neighbors(x, k) == Neighbors(y, k) {
      assert forall o :: o in Neighbors(x, k) <==> LinkedTo(x, k, o);
      assert forall o :: o in Neighbors(y, k) <==> LinkedTo(y, k, o);
    }
  }

  function Exchanged(e: Interaction): Interaction {
    if e.source.key == e.target.key then e else e.(source := e.target, target := e.source)
  }

  /** Neither end has an effect on what the other makes of the interaction: which of two different ends is
      called the source makes no difference. */
  lemma EndsExchange<T, S>(net: Network<T, S>, g: Graph<T>, e: Interaction)
    ensures Same(After(net, g, Exchanged(e)), After(net, g, e))
  {
    hide After, Meets;
    AfterMeets(net, g, e);
    AfterMeets(net, g, Exchanged(e));
    ExchangedMeets(net, g, e, After(net, g, Exchanged(e)));
    MeetsDecides(net, g, e, After(net, g, Exchanged(e)), After(net, g, e));
  }

  lemma ExchangedMeets<T, S>(net: Network<T, S>, g: Graph<T>, e: Interaction, after: Graph<T>)
    requires Meets(net, g, Exchanged(e), after)
    ensures Meets(net, g, e, after)
  {
    hide Learnt, LinkedTo, Keeps;
    LearntEither(net, g, e);
  }

  lemma LearntEither<T, S>(net: Network<T, S>, g: Graph<T>, e: Interaction)
    ensures forall a, b :: Learnt(net, g, Exchanged(e), a, b) == Learnt(net, g, e, a, b)
  {
    hide Recalled, Silence;
  }

  /** The same for a whole history: exchanging the ends of any of its interactions changes no graph and
      no score. */
  lemma {:induction false} ProjectedExchanged<T, S>(net: Network<T, S>, g: Graph<T>, events: seq<Interaction>, other: seq<Interaction>)
    requires |other| == |events| && forall i :: 0 <= i < |events| ==> other[i] == events[i] || other[i] == Exchanged(events[i])
    ensures Same(Projected(net, g, other), Projected(net, g, events))
  {
    if events != [] {
      hide After, Same, Exchanged;
      var n := |events| - 1;
      var x, y := Projected(net, g, events[..n]), Projected(net, g, other[..n]);
      ProjectedExchanged(net, g, events[..n], other[..n]);
      SameAfter(net, y, x, other[n]);
      EndsExchange(net, x, events[n]);
      SameIsSame(After(net, y, other[n]), After(net, x, other[n]), After(net, x, events[n]));
    }
  }

  lemma SameIsSame<T>(a: Graph<T>, b: Graph<T>, c: Graph<T>)
    requires Same(a, b)
    ensures Same(b, b) && (Same(b, c) ==> Same(a, c))
  {}

  lemma {:induction false} SoundProjected<T, S>(net: Network<T, S>, g: Graph<T>, events: seq<Interaction>)
    requires Sound(g) && WellFormed(events)
    ensures Sound(Projected(net, g, events))
  {
    if events != [] {
      SoundProjected(net, g, events[..|events| - 1]);
      SoundAfter(net, Projected(net, g, events[..|events| - 1]), events[|events| - 1]);
    }
  }

  /** Equal up to nodes without neighbours being listed or not. */
  ghost predicate Same<T>(a: Graph<T>, b: Graph<T>) {
    && a.memories == b.memories && a.nodes == b.nodes && a.updatedAt == b.updatedAt
    && forall k :: Neighbors(a, k) == Neighbors(b, k)
  }

  lemma SameAfter<T, S>(net: Network<T, S>, a: Graph<T>, b: Graph<T>, e: Interaction)
    requires Same(a, b)
    ensures Same(After(net, a, e), After(net, b, e))
  {
    hide Neighbors, LinksAfter;
    forall k ensures Neighbors(After(net, a, e), k) == Neighbors(After(net, b, e), k) {
      hide After;
      NeighborsAfter(net, a, e, k);
      NeighborsAfter(net, b, e, k);
    }
    SameMemories(net, a, b, e);
    LinksOnly(a, e.source.key, e.target.key);
    LinksOnly(b, e.source.key, e.target.key);
  }

  lemma SameMemories<T, S>(net: Network<T, S>, a: Graph<T>, b: Graph<T>, e: Interaction)
    requires a.memories == b.memories && a.updatedAt == b.updatedAt
    ensures MemoriesAfter(net, a, e) == MemoriesAfter(net, b, e)
  {}

  lemma {:induction false} SameProjected<T, S>(net: Network<T, S>, a: Graph<T>, b: Graph<T>, events: seq<Interaction>)
    requires Same(a, b)
    ensures Same(Projected(net, a, events), Projected(net, b, events))
  {
    if events != [] {
      SameProjected(net, a, b, events[..|events| - 1]);
      SameAfter(net, Projected(net, a, events[..|events| - 1]), Projected(net, b, events[..|events| - 1]), events[|events| - 1]);
    }
  }

  /** Projecting a prefix first and the rest onto it is projecting the whole. */
  lemma {:induction false} ProjectedSplit<T, S>(net: Network<T, S>, g: Graph<T>, events: seq<Interaction>, n: nat)
    requires n <= |events|
    ensures Projected(net, Projected(net, g, events[..n]), events[n..]) == Projected(net, g, events)
  {
    hide After;
    if n == |events| {
      assert events[..n] == events;
    } else {
      var m := |events| - 1;
      ProjectedSplit(net, g, events[..m], n);
      assert events[..m][..n] == events[..n];
      assert events[n..][..m - n] == events[..m][n..];
      assert events[n..][m - n] == events[m];
    }
  }

  // ---------------------------------------------------------------- ranking agrees on equal graphs

  lemma SameEmbedded<T, S>(net: Network<T, S>, a: Graph<T>, b: Graph<T>, node: Node, observedAt: int)
    requires Sound(a) && Sound(b) && Same(a, b)
    ensures Embedded(net, a, node, observedAt) == Embedded(net, b, node, observedAt)
  {
    assert (map k | k in Neighbors(a, node.key) :: a.memories[k]) == (map k | k in Neighbors(b, node.key) :: b.memories[k]);
  }

  lemma {:induction false} SameGoals<T, S>(net: Network<T, S>, request: Request, a: Graph<T>, b: Graph<T>, n: nat)
    requires Sound(a) && Sound(b) && Same(a, b) && n <= |request.focus|
    ensures Goals(net, request, a, n) == Goals(net, request, b, n)
  {
    if n > 0 {
      SameGoals(net, request, a, b, n - 1);
      SameEmbedded(net, a, b, GoalNode(request.focus[n - 1]), request.observedAt);
    }
  }

  lemma {:induction false} SameScores<T, S>(net: Network<T, S>, request: Request, a: Graph<T>, b: Graph<T>, n: nat)
    requires Sound(a) && Sound(b) && Same(a, b) && n <= |request.candidates|
    ensures Scores(net, request, a, n) == Scores(net, request, b, n)
  {
    if n > 0 {
      hide Same, Sound, Embedded;
      SameScores(net, request, a, b, n - 1);
      SameGoals(net, request, a, b, |request.focus|);
      SameEmbedded(net, a, b, CandidateNode(request.candidates[n - 1]), request.observedAt);
    }
  }

  lemma ScoresExchanged<T, S>(net: Network<T, S>, request: Request, events: seq<Interaction>, other: seq<Interaction>)
    requires WellFormed(events)
    requires |other| == |events| && forall i :: 0 <= i < |events| ==> other[i] == events[i] || other[i] == Exchanged(events[i])
    ensures var g, h := Projected(net, Empty(), events), Projected(net, Empty(), other);
            Sound(g) && Sound(h) && Ranked(net, request, h) == Ranked(net, request, g)
  {
    EmptySound<T>();
    assert WellFormed(other);
    hide Sound, Same, Projected, Exchanged, WellFormed;
    SoundProjected(net, Empty(), events);
    SoundProjected(net, Empty(), other);
    ProjectedExchanged(net, Empty(), events, other);
    SameScores(net, request, Projected(net, Empty(), other), Projected(net, Empty(), events), |request.candidates|);
  }

  /** What is read of a node: its own memory, the mean of exactly its neighbours' memories if there are any,
      the feature of what is stored under its key, or of the node itself if nothing is, and its silence. */
  ghost predicate Reads<T, S>(net: Network<T, S>, g: Graph<T>, node: Node, observedAt: int, t: T) {
    && (forall o :: LinkedTo(g, node.key, o) ==> o in g.memories)
    && var around := map o | o in g.memories && LinkedTo(g, node.key, o) :: g.memories[o];
       t == net.embedding(Recalled(net, g, node), if |around| == 0 then net.zero else net.gather(around),
                          net.encode(if node.key in g.nodes then g.nodes[node.key] else node), Silence(net, g, node, observedAt))
  }

  lemma EmbeddedReads<T, S>(net: Network<T, S>, g: Graph<T>, node: Node, observedAt: int)
    requires Sound(g)
    ensures Reads(net, g, node, observedAt, Embedded(net, g, node, observedAt))
  {
    hide ValidNode;
    var around := map k | k in Neighbors(g, node.key) :: g.memories[k];
    assert around == map o | o in g.memories && LinkedTo(g, node.key, o) :: g.memories[o];
    assert |around| == 0 <==> around == map[];
  }

  /** The score of a candidate comes from what is read of its memory node and of every goal in focus. */
  lemma RankedAt<T, S>(net: Network<T, S>, request: Request, g: Graph<T>, i: nat) returns (goals: seq<T>, t: T)
    requires Sound(g) && i < |request.candidates|
    ensures |Ranked(net, request, g)| == |request.candidates|
    ensures Ranked(net, request, g)[i] == net.recommend(request, goals, request.candidates[i], t)
    ensures var c := request.candidates[i]; Reads(net, g, Node(NodeKey("memory", c.memoryId), c.text), request.observedAt, t)
    ensures |goals| == |request.focus|
    ensures forall k :: 0 <= k < |goals| ==>
              Reads(net, g, Node(NodeKey("goal", request.focus[k]), request.focus[k]), request.observedAt, goals[k])
  {
    hide ValidNode, Embedded, Reads;
    ScoreAt(net, request, g, |request.candidates|, i);
    goals := Goals(net, request, g, |request.focus|);
    t := Embedded(net, g, CandidateNode(request.candidates[i]), request.observedAt);
    EmbeddedReads(net, g, CandidateNode(request.candidates[i]), request.observedAt);
    forall k | 0 <= k < |goals|
      ensures Reads(net, g, Node(NodeKey("goal", request.focus[k]), request.focus[k]), request.observedAt, goals[k])
    {
      GoalAt(net, request, g, |request.focus|, k);
      EmbeddedReads(net, g, GoalNode(request.focus[k]), request.observedAt);
    }
  }

  lemma {:induction false} ScoreAt<T, S>(net: Network<T, S>, request: Request, g: Graph<T>, n: nat, i: nat)
    requires Sound(g) && i < n <= |request.candidates|
    ensures Scores(net, request, g, n)[i]
         == net.recommend(request, Goals(net, request, g, |request.focus|), request.candidates[i],
                          Embedded(net, g, CandidateNode(request.candidates[i]), request.observedAt))
  {
    hide Sound, Embedded;
    if i < n - 1 {
      ScoreAt(net, request, g, n - 1, i);
    }
  }

  lemma {:induction false} GoalAt<T, S>(net: Network<T, S>, request: Request, g: Graph<T>, n: nat, i: nat)
    requires Sound(g) && i < n <= |request.focus|
    ensures Goals(net, request, g, n)[i] == Embedded(net, g, GoalNode(request.focus[i]), request.observedAt)
  {
    hide Sound, Embedded;
    if i < n - 1 {
      GoalAt(net, request, g, n - 1, i);
    }
  }

  // ---------------------------------------------------------------- the mutable state and the network on it

  class GraphState<T> {
    var memories: map<NodeKey, T>
    var nodes: map<NodeKey, Node>
    var updatedAt: map<NodeKey, int>
    var neighbors: map<NodeKey, set<NodeKey>>
    var features: map<Node, T>

    constructor ()
      ensures View() == Empty() && features == map[]
    {
      memories, nodes, updatedAt, neighbors, features := map[], map[], map[], map[], map[];
    }

    function View(): Graph<T>
      reads this
    {
      Graph(memories, nodes, updatedAt, neighbors)
    }

    /** The cache holds nothing but what encoding would give. */
    ghost predicate Cached<S>(net: Network<T, S>)
      reads this
    {
      forall node :: node in features ==> features[node] == net.encode(node)
    }
  }

  method Feature<T, S>(net: Network<T, S>, state: GraphState<T>, node: Node) returns (f: T)
    requires state.Cached(net)
    modifies state`features
    ensures f == net.encode(node) && state.Cached(net)
  {
    if node !in state.features {
      state.features := state.features[node := net.encode(node)];
    }
    f := state.features[node];
  }

  /** The first half of `update`: both messages are made from the state before the interaction. */
  method Messages<T, S>(net: Network<T, S>, state: GraphState<T>, e: Interaction) returns (source: T, target: T)
    requires state.Cached(net)
    modifies state`features
    ensures state.Cached(net)
    ensures source == SourceMessage(net, state.View(), e) && target == TargetMessage(net, state.View(), e)
  {
    var a, b := e.source.key, e.target.key;
    var first := Memory(net, state.View(), a);
    var second := Memory(net, state.View(), b);
    var sourceFeature := Feature(net, state, e.source);
    var targetFeature := Feature(net, state, e.target);
    var firstAge := net.age(e.recordedAt, Updated(state.updatedAt, a, e.recordedAt));
    var secondAge := net.age(e.recordedAt, Updated(state.updatedAt, b, e.recordedAt));
    source := net.message(first, second, sourceFeature, targetFeature, e.relation, firstAge, secondAge, e.value);
    target := net.message(second, first, targetFeature, sourceFeature, e.relation, secondAge, firstAge, e.value);
  }

  /** `update`, in place. */
  method Update<T, S>(net: Network<T, S>, state: GraphState<T>, e: Interaction)
    requires state.Cached(net)
    modifies state
    ensures state.Cached(net) && state.View() == After(net, old(state.View()), e)
    ensures Meets(net, old(state.View()), e, state.View())
  {
    hide Noted, Neighbors, SourceMessage, TargetMessage, Memory, Meets;
    ghost var g := state.View();
    var a, b := e.source.key, e.target.key;
    var first := Memory(net, state.View(), a);
    var second := Memory(net, state.View(), b);
    var sourceMessage, targetMessage := Messages(net, state, e);
    state.memories := state.memories[a := net.recurrent(sourceMessage, first)];
    if b != a {
      state.memories := state.memories[b := net.recurrent(targetMessage, second)];
      Link(net, state, a, b);
    }
    assert state.memories == MemoriesAfter(net, g, e);
    LinksFrom(g, state.memories, a, b);
    LinksOnly(g, a, b);
    assert state.View() == LinksAfter(g, a, b).(memories := MemoriesAfter(net, g, e));
    Note(net, state, e.source, e.recordedAt);
    Note(net, state, e.target, e.recordedAt);
    AfterMeets(net, g, e);
  }

  /** Linking looks at the neighbours only. */
  lemma LinksFrom<T>(g: Graph<T>, memories: map<NodeKey, T>, a: NodeKey, b: NodeKey)
    ensures LinksAfter(g.(memories := memories), a, b).neighbors == LinksAfter(g, a, b).neighbors
  {}

  /** Each end becomes a neighbour of the other. */
  method Link<T, S>(ghost net: Network<T, S>, state: GraphState<T>, a: NodeKey, b: NodeKey)
    requires state.Cached(net) && a != b
    modifies state`neighbors
    ensures state.Cached(net) && state.neighbors == LinksAfter(old(state.View()), a, b).neighbors
  {
    state.neighbors := state.neighbors[a := Neighbors(state.View(), a) + {b}];
    state.neighbors := state.neighbors[b := Neighbors(state.View(), b) + {a}];
  }

  method Note<T, S>(ghost net: Network<T, S>, state: GraphState<T>, node: Node, at: int)
    requires state.Cached(net)
    modifies state`nodes, state`updatedAt
    ensures state.Cached(net) && state.View() == Noted(old(state.View()), node, at)
  {
    if node.text != "" || node.key !in state.nodes {
      state.nodes := state.nodes[node.key := node];
    }
    state.updatedAt := state.updatedAt[node.key := at];
  }

  /** `project` onto a state; a failure leaves it at some prefix. */
  method Project<T, S>(net: Network<T, S>, state: GraphState<T>, events: seq<Interaction>, fault: Option<nat>) returns (done: bool)
    requires state.Cached(net)
    modifies state
    ensures state.Cached(net)
    ensures done <==> fault.None? || fault.value >= |events|
    ensures done ==> state.View() == Projected(net, old(state.View()), events)
  {
    hide After, Meets;
    for i := 0 to |events|
      invariant state.Cached(net) && state.View() == Projected(net, old(state.View()), events[..i])
      invariant fault.None? || fault.value >= i
    {
      if fault == Some(i) {
        return false;
      }
      assert events[..i + 1][..i] == events[..i];
      Update(net, state, events[i]);
    }
    assert events[..|events|] == events;
    return true;
  }

  method NodeEmbedding<T, S>(net: Network<T, S>, state: GraphState<T>, node: Node, observedAt: int) returns (t: T)
    requires state.Cached(net) && Sound(state.View())
    modifies state`features
    ensures state.Cached(net) && t == Embedded(net, state.View(), node, observedAt)
    ensures Reads(net, state.View(), node, observedAt, t)
  {
    hide Reads;
    var memory := Memory(net, state.View(), node.key);
    var around := map k | k in Neighbors(state.View(), node.key) :: state.memories[k];
    var neighborhood := if |around| == 0 then net.zero else net.gather(around);
    var feature := Feature(net, state, NodeOf(state.View(), node));
    t := net.embedding(memory, neighborhood, feature, net.age(observedAt, Updated(state.updatedAt, node.key, observedAt)));
    EmbeddedReads(net, state.View(), node, observedAt);
  }

  /** `rank`: reads the graph, fills only the feature cache. */
  method Rank<T, S>(net: Network<T, S>, request: Request, state: GraphState<T>) returns (scores: seq<S>)
    requires state.Cached(net) && Sound(state.View())
    modifies state`features
    ensures state.Cached(net) && scores == Ranked(net, request, state.View())
  {
    hide Sound, Embedded;
    ghost var g := state.View();
    var goals: seq<T> := [];
    for i := 0 to |request.focus|
      invariant state.Cached(net) && goals == Goals(net, request, g, i)
    {
      var goal := NodeEmbedding(net, state, GoalNode(request.focus[i]), request.observedAt);
      goals := goals + [goal];
    }
    scores := [];
    for i := 0 to |request.candidates|
      invariant state.Cached(net) && scores == Scores(net, request, g, i)
    {
      var encoded := NodeEmbedding(net, state, CandidateNode(request.candidates[i]), request.observedAt);
      scores := scores + [net.recommend(request, goals, request.candidates[i], encoded)];
    }
  }

  // ---------------------------------------------------------------- checkpoints

  /** The history a projection belongs to; the digest identifies the interactions exactly. */
  datatype Prefix = Prefix(count: nat, cursor: nat, recordedAt: int, digest: nat)

  datatype Row = Row(key: NodeKey, text: string, updatedAt: int, neighbors: set<NodeKey>)

  datatype Content<T> = Damaged | Stored(coordinates: string, model: string, prefix: Prefix, rows: seq<Row>, memories: seq<T>)

  datatype Checkpoint<T> = Saved(model: string, prefix: Prefix, content: Content<T>)

  /** Each node of the graph in one row, in some order, with its memory beside it. */
  ghost predicate Encodes<T>(rows: seq<Row>, memories: seq<T>, g: Graph<T>) {
    && |memories| == |rows|
    && (forall i, j :: 0 <= i < j < |rows| ==> rows[i].key != rows[j].key)
    && (forall i :: 0 <= i < |rows| ==>
          && rows[i].key in g.nodes && rows[i].key in g.updatedAt && rows[i].key in g.memories
          && g.nodes[rows[i].key] == Node(rows[i].key, rows[i].text)
          && g.updatedAt[rows[i].key] == rows[i].updatedAt
          && rows[i].neighbors == Neighbors(g, rows[i].key)
          && memories[i] == g.memories[rows[i].key])
    && (forall k :: k in g.nodes ==> HasRow(rows, k))
  }

  ghost predicate HasRow(rows: seq<Row>, k: NodeKey) {
    exists i :: 0 <= i < |rows| && rows[i].key == k
  }

  /** What `_read_nodes` demands. */
  ghost predicate Readable<T, S>(net: Network<T, S>, rows: seq<Row>, memories: seq<T>, prefix: Prefix) {
    && rows != [] && |memories| == |rows|
    && (forall i :: 0 <= i < |memories| ==> net.finite(memories[i]))
    && (forall i :: 0 <= i < |rows| ==> ValidNode(Node(rows[i].key, rows[i].text)) && rows[i].updatedAt <= prefix.recordedAt)
    && (forall i, j :: 0 <= i < j < |rows| ==> rows[i].key != rows[j].key)
    && (forall i :: 0 <= i < |rows| ==> Mutual(rows, i))
  }

  ghost predicate Mutual(rows: seq<Row>, i: nat)
    requires i < |rows|
  {
    rows[i].key !in rows[i].neighbors
    && forall o :: o in rows[i].neighbors ==> LinksBack(rows, o, rows[i].key)
  }

  ghost predicate LinksBack(rows: seq<Row>, from: NodeKey, to: NodeKey) {
    exists j :: 0 <= j < |rows| && rows[j].key == from && to in rows[j].neighbors
  }

  /** The graph the first n rows describe. */
  function Built<T>(rows: seq<Row>, memories: seq<T>, n: nat): Graph<T>
    requires n <= |rows| == |memories|
  {
    if n == 0 then Empty()
    else
      var g, row := Built(rows, memories, n - 1), rows[n - 1];
      Graph(g.memories[row.key := memories[n - 1]], g.nodes[row.key := Node(row.key, row.text)],
            g.updatedAt[row.key := row.updatedAt], g.neighbors[row.key := row.neighbors])
  }

  lemma {:induction false} BuiltAt<T>(rows: seq<Row>, memories: seq<T>, n: nat, i: nat)
    requires i < n <= |rows| == |memories| && forall a, b :: 0 <= a < b < |rows| ==> rows[a].key != rows[b].key
    ensures var g, k := Built(rows, memories, n), rows[i].key;
            && k in g.memories && g.memories[k] == memories[i] && k in g.nodes && g.nodes[k] == Node(k, rows[i].text)
            && k in g.updatedAt && g.updatedAt[k] == rows[i].updatedAt && k in g.neighbors && g.neighbors[k] == rows[i].neighbors
  {
    if i < n - 1 {
      BuiltAt(rows, memories, n - 1, i);
    }
  }

  /** One more row enters the graph. */
  lemma BuiltStep<T>(rows: seq<Row>, memories: seq<T>, n: nat)
    requires n < |rows| == |memories|
    ensures Built<T>(rows, memories, 0) == Empty()
    ensures var g, row := Built(rows, memories, n), rows[n];
            Built(rows, memories, n + 1)
            == Graph(g.memories[row.key := memories[n]], g.nodes[row.key := Node(row.key, row.text)],
                     g.updatedAt[row.key := row.updatedAt], g.neighbors[row.key := row.neighbors])
  {}

  lemma {:induction false} BuiltKeys<T>(rows: seq<Row>, memories: seq<T>, n: nat)
    requires n <= |rows| == |memories|
    ensures var g := Built(rows, memories, n);
            && g.memories.Keys == g.nodes.Keys == g.updatedAt.Keys == g.neighbors.Keys
            && forall k :: k in g.nodes <==> exists i :: 0 <= i < n && rows[i].key == k
  {
    if n > 0 {
      BuiltKeys(rows, memories, n - 1);
      forall k | exists i :: 0 <= i < n && rows[i].key == k ensures k in Built(rows, memories, n).nodes {
        var i :| 0 <= i < n && rows[i].key == k;
        assert i < n - 1 ==> k in Built(rows, memories, n - 1).nodes;
      }
    }
  }

  lemma BuiltOne<T>(rows: seq<Row>, memories: seq<T>, g: Graph<T>, k: NodeKey)
    requires Encodes(rows, memories, g) && k in g.nodes
    ensures var b := Built(rows, memories, |rows|);
            && k in b.nodes && b.nodes[k] == g.nodes[k]
            && k in b.memories && k in g.memories && b.memories[k] == g.memories[k]
            && k in b.updatedAt && k in g.updatedAt && b.updatedAt[k] == g.updatedAt[k]
            && Neighbors(b, k) == Neighbors(g, k)
  {
    hide Built;
    assert HasRow(rows, k);
    var i :| 0 <= i < |rows| && rows[i].key == k;
    BuiltAt(rows, memories, |rows|, i);
  }

  lemma SameSound<T>(a: Graph<T>, b: Graph<T>)
    requires Same(a, b) && Sound(b)
    ensures Sound(a)
  {
    hide ValidNode, Neighbors;
    forall k, o | o in Neighbors(a, k) ensures Linkage(a, k, o) {
      assert o in Neighbors(b, k) && Linkage(b, k, o) && Neighbors(a, o) == Neighbors(b, o);
    }
  }

  lemma NoStrangers<T>(g: Graph<T>, k: NodeKey)
    requires Sound(g) && k !in g.nodes
    ensures Neighbors(g, k) == {}
  {
    hide ValidNode, Neighbors;
    forall o ensures o !in Neighbors(g, k) {
      assert !Linkage(g, k, o);
    }
  }

  lemma BuiltNodes<T>(rows: seq<Row>, memories: seq<T>, g: Graph<T>)
    requires Sound(g) && Encodes(rows, memories, g)
    ensures var b := Built(rows, memories, |rows|);
            b.memories.Keys == b.nodes.Keys == b.updatedAt.Keys == b.neighbors.Keys == g.nodes.Keys
  {
    hide Built, ValidNode;
    BuiltKeys(rows, memories, |rows|);
    forall k | k in g.nodes ensures k in Built(rows, memories, |rows|).nodes {
      assert HasRow(rows, k);
    }
  }

  /** Reading the rows of a sound graph gives that graph back, with empty neighbour sets listed. */
  lemma BuiltSame<T>(rows: seq<Row>, memories: seq<T>, g: Graph<T>)
    requires Sound(g) && Encodes(rows, memories, g)
    ensures Same(Built(rows, memories, |rows|), g) && Sound(Built(rows, memories, |rows|))
  {
    hide Built, ValidNode, Encodes, Neighbors;
    EncodesPairs(rows, memories, g);
    var b := Built(rows, memories, |rows|);
    BuiltNodes(rows, memories, g);
    forall k | k in g.nodes
      ensures b.nodes[k] == g.nodes[k] && b.memories[k] == g.memories[k] && b.updatedAt[k] == g.updatedAt[k]
    {
      BuiltOne(rows, memories, g, k);
    }
    forall k ensures Neighbors(b, k) == Neighbors(g, k) {
      if k in g.nodes {
        BuiltOne(rows, memories, g, k);
      } else {
        NoStrangers(g, k);
        Unlisted(b, k);
      }
    }
    assert b.memories == g.memories && b.nodes == g.nodes && b.updatedAt == g.updatedAt;
    SameSound(b, g);
  }

  lemma EncodesPairs<T>(rows: seq<Row>, memories: seq<T>, g: Graph<T>)
    requires Encodes(rows, memories, g)
    ensures |rows| == |memories|
  {}

  lemma Unlisted<T>(g: Graph<T>, k: NodeKey)
    requires k !in g.neighbors
    ensures Neighbors(g, k) == {}
  {}

  lemma EncodedMutual<T>(rows: seq<Row>, memories: seq<T>, g: Graph<T>, i: nat)
    requires Sound(g) && Encodes(rows, memories, g) && i < |rows|
    ensures Mutual(rows, i) && ValidNode(Node(rows[i].key, rows[i].text))
  {
    hide ValidNode, Neighbors;
    var k := rows[i].key;
    assert k in g.nodes;
    forall o | o in rows[i].neighbors ensures o != k && LinksBack(rows, o, k) {
      assert o in Neighbors(g, k);
      assert Linkage(g, k, o) && HasRow(rows, o);
      var j :| 0 <= j < |rows| && rows[j].key == o;
      assert rows[j].neighbors == Neighbors(g, o);
    }
  }

  /** The rows of a sound, bounded, non-empty graph are readable exactly when its memories are finite. */
  lemma ReadableIff<T, S>(net: Network<T, S>, rows: seq<Row>, memories: seq<T>, g: Graph<T>, prefix: Prefix)
    requires Sound(g) && Encodes(rows, memories, g) && g.nodes.Keys != {}
    requires forall k :: k in g.updatedAt ==> g.updatedAt[k] <= prefix.recordedAt
    ensures Readable(net, rows, memories, prefix) <==> forall k :: k in g.memories ==> net.finite(g.memories[k])
  {
    hide ValidNode, Mutual, Neighbors, Linkage;
    var k0 :| k0 in g.nodes.Keys;
    assert HasRow(rows, k0);
    forall i | 0 <= i < |rows| ensures Mutual(rows, i) && ValidNode(Node(rows[i].key, rows[i].text)) {
      EncodedMutual(rows, memories, g, i);
    }
    if forall i :: 0 <= i < |memories| ==> net.finite(memories[i]) {
      forall k | k in g.memories ensures net.finite(g.memories[k]) {
        assert k in g.nodes && HasRow(rows, k);
      }
    }
  }

  lemma {:induction false} TimesBounded<T, S>(net: Network<T, S>, events: seq<Interaction>, bound: int)
    requires forall i :: 0 <= i < |events| ==> events[i].recordedAt <= bound
    ensures var g := Projected(net, Empty(), events);
            && (forall k :: k in g.updatedAt ==> g.updatedAt[k] <= bound)
            && (events != [] ==> g.nodes.Keys != {})
  {
    hide After;
    if events != [] {
      var m := |events| - 1;
      TimesBounded(net, events[..m], bound);
      AfterShape(net, Projected(net, Empty(), events[..m]), events[m]);
      assert events[m].source.key in Projected(net, Empty(), events).nodes.Keys;
    }
  }

  lemma OneMoreRow(rows: seq<Row>, row: Row, o: NodeKey)
    ensures HasRow(rows + [row], o) <==> HasRow(rows, o) || o == row.key
  {
    var longer := rows + [row];
    if i :| 0 <= i < |rows| && rows[i].key == o {
      assert longer[i].key == o;
    }
    if o == row.key {
      assert longer[|rows|].key == o;
    }
  }

  /** `encode_state`. */
  method EncodeRows<T>(state: GraphState<T>) returns (rows: seq<Row>, memories: seq<T>)
    requires Sound(state.View())
    ensures Encodes(rows, memories, state.View())
  {
    hide ValidNode, HasRow, Neighbors;
    rows, memories := [], [];
    var todo := state.nodes.Keys;
    while todo != {}
      invariant todo <= state.nodes.Keys && |rows| == |memories|
      invariant forall i :: 0 <= i < |rows| ==> rows[i].key !in todo
      invariant forall i, j :: 0 <= i < j < |rows| ==> rows[i].key != rows[j].key
      invariant forall i :: 0 <= i < |rows| ==>
        && rows[i].key in state.nodes && state.nodes[rows[i].key] == Node(rows[i].key, rows[i].text)
        && state.updatedAt[rows[i].key] == rows[i].updatedAt
        && rows[i].neighbors == Neighbors(state.View(), rows[i].key) && memories[i] == state.memories[rows[i].key]
      invariant forall k :: k in state.nodes && k !in todo ==> HasRow(rows, k)
      decreases todo
    {
      var k :| k in todo;
      todo := todo - {k};
      var row := Row(k, state.nodes[k].text, state.updatedAt[k], Neighbors(state.View(), k));
      forall o ensures HasRow(rows + [row], o) <==> HasRow(rows, o) || o == k {
        OneMoreRow(rows, row, o);
      }
      rows := rows + [row];
      memories := memories + [state.memories[k]];
    }
  }

  datatype Error = InvalidScores | Interrupted | DamagedCheckpoint

  /** `_read_nodes`: rejects exactly what is not readable, otherwise builds the graph of the rows. */
  method ReadNodes<T, S>(net: Network<T, S>, rows: seq<Row>, memories: seq<T>, prefix: Prefix) returns (r: Result<GraphState<T>, Error>)
    ensures r.Ok? <==> Readable(net, rows, memories, prefix)
    ensures r.Ok? ==> fresh(r.value) && r.value.View() == Built(rows, memories, |rows|) && r.value.features == map[]
    ensures r.Err? ==> r.error == DamagedCheckpoint
  {
    hide ValidNode, Mutual, Built, Neighbors;
    if rows == [] || |memories| != |rows| {
      return Err(DamagedCheckpoint);
    }
    if exists i | 0 <= i < |memories| :: !net.finite(memories[i]) {
      return Err(DamagedCheckpoint);
    }
    var state := new GraphState<T>();
    BuiltStep(rows, memories, 0);
    for i := 0 to |rows|
      invariant state.View() == Built(rows, memories, i) && state.features == map[]
      invariant forall j :: 0 <= j < i ==> ValidNode(Node(rows[j].key, rows[j].text)) && rows[j].updatedAt <= prefix.recordedAt
      invariant forall j, k :: 0 <= j < k < i ==> rows[j].key != rows[k].key
    {
      var row := rows[i];
      BuiltStep(rows, memories, i);
      BuiltKeys(rows, memories, i);
      if !ValidNode(Node(row.key, row.text)) || row.key in state.nodes || row.updatedAt > prefix.recordedAt {
        return Err(DamagedCheckpoint);
      }
      state.nodes := state.nodes[row.key := Node(row.key, row.text)];
      state.memories := state.memories[row.key := memories[i]];
      state.updatedAt := state.updatedAt[row.key := row.updatedAt];
      state.neighbors := state.neighbors[row.key := row.neighbors];
    }
    var mutual := MutualNeighbors(rows, memories, state);
    if !mutual {
      return Err(DamagedCheckpoint);
    }
    return Ok(state);
  }

  method MutualNeighbors<T>(ghost rows: seq<Row>, ghost memories: seq<T>, state: GraphState<T>) returns (mutual: bool)
    requires |rows| == |memories| && state.View() == Built(rows, memories, |rows|)
    requires forall j, k :: 0 <= j < k < |rows| ==> rows[j].key != rows[k].key
    ensures mutual <==> forall i :: 0 <= i < |rows| ==> Mutual(rows, i)
  {
    hide Mutual, Built, MutualBut;
    BuiltKeys(rows, memories, |rows|);
    MutualBounds(rows, state.neighbors.Keys);
    var todo := state.neighbors.Keys;
    mutual := true;
    while todo != {}
      invariant todo <= state.neighbors.Keys
      invariant mutual <==> MutualBut(rows, todo)
      decreases todo
    {
      var k :| k in todo;
      ghost var i :| 0 <= i < |rows| && rows[i].key == k;
      MutualAt(rows, memories, i, state.neighbors);
      MutualStep(rows, todo, i);
      todo := todo - {k};
      if k in state.neighbors[k] || exists o | o in state.neighbors[k] :: o !in state.nodes || k !in state.neighbors[o] {
        mutual := false;
      }
    }
  }

  /** All rows whose key is not in `todo` are mutual. */
  ghost predicate MutualBut(rows: seq<Row>, todo: set<NodeKey>) {
    forall i :: 0 <= i < |rows| && rows[i].key !in todo ==> Mutual(rows, i)
  }

  lemma MutualBounds(rows: seq<Row>, keys: set<NodeKey>)
    ensures MutualBut(rows, {}) <==> forall i :: 0 <= i < |rows| ==> Mutual(rows, i)
    ensures (forall i :: 0 <= i < |rows| ==> rows[i].key in keys) ==> MutualBut(rows, keys)
  {
    hide Mutual;
  }

  lemma MutualStep(rows: seq<Row>, todo: set<NodeKey>, i: nat)
    requires i < |rows| && rows[i].key in todo
    requires forall j, k :: 0 <= j < k < |rows| ==> rows[j].key != rows[k].key
    ensures MutualBut(rows, todo - {rows[i].key}) <==> MutualBut(rows, todo) && Mutual(rows, i)
  {
    hide Mutual;
  }

  /** One row is mutual when its node's neighbours are nodes that list it too. */
  lemma MutualAt<T>(rows: seq<Row>, memories: seq<T>, i: nat, neighbors: map<NodeKey, set<NodeKey>>)
    requires i < |rows| == |memories| && neighbors == Built(rows, memories, |rows|).neighbors
    requires forall j, k :: 0 <= j < k < |rows| ==> rows[j].key != rows[k].key
    ensures var k := rows[i].key;
            && k in neighbors
            && (Mutual(rows, i) <==> k !in neighbors[k] && forall o :: o in neighbors[k] ==> o in neighbors && k in neighbors[o])
  {
    hide Built, LinksBack;
    BuiltAt(rows, memories, |rows|, i);
    var k := rows[i].key;
    forall o ensures LinksBack(rows, o, k) <==> o in neighbors && k in neighbors[o] {
      BackAt(rows, memories, o, k, neighbors);
    }
  }

  lemma BackAt<T>(rows: seq<Row>, memories: seq<T>, from: NodeKey, to: NodeKey, neighbors: map<NodeKey, set<NodeKey>>)
    requires |rows| == |memories| && neighbors == Built(rows, memories, |rows|).neighbors
    requires forall j, k :: 0 <= j < k < |rows| ==> rows[j].key != rows[k].key
    ensures LinksBack(rows, from, to) <==> from in neighbors && to in neighbors[from]
  {
    hide Built;
    if LinksBack(rows, from, to) {
      var j :| 0 <= j < |rows| && rows[j].key == from && to in rows[j].neighbors;
      BuiltAt(rows, memories, |rows|, j);
    }
    if from in neighbors && to in neighbors[from] {
      BuiltKeys(rows, memories, |rows|);
      var j :| 0 <= j < |rows| && rows[j].key == from;
      BuiltAt(rows, memories, |rows|, j);
    }
  }

  // ---------------------------------------------------------------- the policy

  function PrefixOf(fingerprint: seq<Interaction> -> nat, events: seq<Interaction>): Prefix
    requires events != []
  {
    Prefix(|events|, events[|events| - 1].cursor, events[|events| - 1].recordedAt, fingerprint(events))
  }

  ghost predicate Injective(fingerprint: seq<Interaction> -> nat) {
    forall a, b :: fingerprint(a) == fingerprint(b) ==> a == b
  }

  /** Scoring from nothing: project all interactions of the request, then rank. */
  ghost function ScoreOf<T, S>(net: Network<T, S>, request: Request): Result<seq<S>, Error>
    requires WellFormed(request.interactions)
  {
    SoundProjected(net, Empty(), request.interactions);
    var scores := Ranked(net, request, Projected(net, Empty(), request.interactions));
    if forall s :: s in scores ==> net.finiteScore(s) then Ok(scores) else Err(InvalidScores)
  }

  /** A checkpoint written by a policy of this network for exactly these interactions. */
  ghost predicate Genuine<T, S>(net: Network<T, S>, fingerprint: seq<Interaction> -> nat, c: Checkpoint<T>, events: seq<Interaction>) {
    && events != [] && WellFormed(events) && c.prefix == PrefixOf(fingerprint, events) && c.content.Stored?
    && Encodes(c.content.rows, c.content.memories, Projected(net, Empty(), events))
  }

  lemma EncodesSame<T>(rows: seq<Row>, memories: seq<T>, a: Graph<T>, b: Graph<T>)
    requires Encodes(rows, memories, a) && Same(a, b)
    ensures Encodes(rows, memories, b)
  {
    hide Neighbors, HasRow;
  }

  lemma LastBounds(events: seq<Interaction>)
    requires Ordered(events) && events != []
    ensures forall i :: 0 <= i < |events| ==> events[i].recordedAt <= events[|events| - 1].recordedAt
  {}

  /** A genuine checkpoint is read back exactly when every projected memory is finite, and then it
      gives the projection back. */
  lemma CheckpointRoundTrip<T, S>(net: Network<T, S>, fingerprint: seq<Interaction> -> nat, c: Checkpoint<T>, events: seq<Interaction>)
    requires Genuine(net, fingerprint, c, events)
    ensures var g := Projected(net, Empty(), events);
            && (Readable(net, c.content.rows, c.content.memories, c.prefix) <==> forall k :: k in g.memories ==> net.finite(g.memories[k]))
            && |c.content.rows| == |c.content.memories|
            && Same(Built(c.content.rows, c.content.memories, |c.content.rows|), g)
  {
    hide Encodes, Readable, Built, Sound, Same;
    var g := Projected(net, Empty(), events);
    EmptySound<T>();
    SoundProjected(net, Empty(), events);
    LastBounds(events);
    TimesBounded(net, events, c.prefix.recordedAt);
    EncodesPairs(c.content.rows, c.content.memories, g);
    ReadableIff(net, c.content.rows, c.content.memories, g, c.prefix);
    BuiltSame(c.content.rows, c.content.memories, g);
  }

  lemma EmptySound<T>()
    ensures Sound(Empty<T>())
  {}

  /** Continuing from anything equal to the projection of a prefix is projecting the whole. */
  lemma Continued<T, S>(net: Network<T, S>, g: Graph<T>, events: seq<Interaction>, n: nat)
    requires n <= |events| && WellFormed(events) && Same(g, Projected(net, Empty(), events[..n]))
    ensures Same(Projected(net, g, events[n..]), Projected(net, Empty(), events))
    ensures Sound(Projected(net, g, events[n..])) && Sound(Projected(net, Empty(), events))
  {
    hide Projected, Same, Sound;
    SameProjected(net, g, Projected(net, Empty(), events[..n]), events[n..]);
    ProjectedSplit(net, Empty(), events, n);
    EmptySound<T>();
    SoundProjected(net, Empty(), events);
    SameSound(Projected(net, g, events[n..]), Projected(net, Empty(), events));
  }

  /** Scoring from a graph that stands for the first `start` interactions of the request. */
  ghost function ScoreFrom<T, S>(net: Network<T, S>, request: Request, g: Graph<T>, start: nat): Result<seq<S>, Error>
    requires WellFormed(request.interactions) && start <= |request.interactions| && Sound(g)
  {
    SoundProjected(net, g, request.interactions[start..]);
    var scores := Ranked(net, request, Projected(net, g, request.interactions[start..]));
    if forall s :: s in scores ==> net.finiteScore(s) then Ok(scores) else Err(InvalidScores)
  }

  /** From the projection of the first interactions this is scoring from nothing. */
  lemma ScoreFromProjection<T, S>(net: Network<T, S>, request: Request, g: Graph<T>, start: nat)
    requires WellFormed(request.interactions) && start <= |request.interactions|
    requires Sound(g) && Same(g, Projected(net, Empty(), request.interactions[..start]))
    ensures ScoreFrom(net, request, g, start) == ScoreOf(net, request)
  {
    hide Projected, Same, Sound, Ranked;
    Continued(net, g, request.interactions, start);
    RankedSame(net, request, Projected(net, g, request.interactions[start..]), Projected(net, Empty(), request.interactions));
  }

  lemma ScoreFromNothing<T, S>(net: Network<T, S>, request: Request)
    requires WellFormed(request.interactions)
    ensures Sound(Empty<T>()) && ScoreFrom(net, request, Empty(), 0) == ScoreOf(net, request)
  {
    hide Ranked;
    assert request.interactions[0..] == request.interactions;
  }

  /** What scoring will give from a cache that the request continues, or from nothing. */
  lemma Foreseen<T, S>(net: Network<T, S>, request: Request, g: Graph<T>, held: seq<Interaction>, continues: bool)
    requires WellFormed(request.interactions) && Sound(g) && (continues ==> held <= request.interactions)
    ensures var from, start := if continues then g else Empty(), if continues then |held| else 0;
            && Sound(from)
            && (!continues || Same(g, Projected(net, Empty(), held)) ==>
                  && ScoreFrom(net, request, from, start) == ScoreOf(net, request)
                  && Same(Projected(net, from, request.interactions[start..]), Projected(net, Empty(), request.interactions)))
  {
    hide Projected, Same, Sound, ScoreOf, ScoreFrom, WellFormed;
    EmptyProjected(net);
    ScoreFromNothing(net, request);
    assert request.interactions[..0] == [];
    if !continues {
      Continued(net, Empty(), request.interactions, 0);
    } else if Same(g, Projected(net, Empty(), held)) {
      assert request.interactions[..|held|] == held;
      ScoreFromProjection(net, request, g, |held|);
      Continued(net, g, request.interactions, |held|);
    }
  }

  class TGNMemoryPolicy<T, S> {
    const net: Network<T, S>
    const ref: string
    const coordinates: string
    const fingerprint: seq<Interaction> -> nat
    var interactions: Option<seq<Interaction>>
    var prefix: Option<Prefix>
    var state: GraphState<T>
    /** Whether the state is the projection it is taken for. Only a file that carries the label of this
        model without having been written by it can make it something else. */
    ghost var genuine: bool
    /** The interactions the state is the projection of, known or only claimed by a checkpoint. */
    ghost var held: seq<Interaction>

    ghost predicate Valid()
      reads this, state
    {
      && Injective(fingerprint) && state.features == map[] && Sound(state.View())
      && (genuine ==> WellFormed(held) && Same(state.View(), Projected(net, Empty(), held)))
      && (interactions.Some? ==> WellFormed(held) && interactions.value == held
                                 && (prefix.Some? ==> held != [] && prefix.value == PrefixOf(fingerprint, held)))
      && (interactions.None? ==> prefix.Some? && prefix.value.count > 0
                                 && (genuine ==> held != [] && prefix.value == PrefixOf(fingerprint, held)))
    }

    constructor (net: Network<T, S>, ref: string, coordinates: string, fingerprint: seq<Interaction> -> nat)
      requires Injective(fingerprint)
      ensures Valid() && fresh(state) && held == [] && interactions == Some([]) && genuine
      ensures this.net == net && this.ref == ref && this.coordinates == coordinates && this.fingerprint == fingerprint
    {
      this.net, this.ref, this.coordinates, this.fingerprint := net, ref, coordinates, fingerprint;
      interactions, prefix, held, genuine := Some([]), None, [], true;
      state := new GraphState<T>();
    }

    /** `_clear`. */
    method Clear()
      requires Injective(fingerprint)
      modifies this`state, this`interactions, this`prefix, this`held, this`genuine
      ensures Valid() && fresh(state) && held == [] && interactions == Some([]) && prefix.None? && genuine
      ensures state.View() == Empty()
    {
      state := new GraphState<T>();
      interactions, prefix, held, genuine := Some([]), None, [], true;
    }

    lemma Sane()
      requires Valid()
      ensures Sound(state.View())
    {}

    /** The request begins with the interactions that a label names. */
    predicate Claims(p: Prefix, request: Request) {
      0 < p.count <= |request.interactions| && PrefixOf(fingerprint, request.interactions[..p.count]) == p
    }

    /** The cache is of use for the request: its interactions are known, or the request begins with
        those that the restored checkpoint names. */
    ghost predicate Believed(request: Request)
      reads this
    {
      interactions.Some? || (prefix.Some? && Claims(prefix.value, request))
    }

    /** The interactions that the cache then stands for. */
    ghost function Base(request: Request): seq<Interaction>
      reads this
    {
      if interactions.Some? then interactions.value
      else if prefix.Some? && Claims(prefix.value, request) then request.interactions[..prefix.value.count]
      else []
    }

    lemma ClaimsMeans(p: Prefix, request: Request)
      requires p.count > 0
      ensures Claims(p, request) <==>
                && p.count <= |request.interactions|
                && var last := request.interactions[p.count - 1];
                   last.cursor == p.cursor && last.recordedAt == p.recordedAt && fingerprint(request.interactions[..p.count]) == p.digest
    {}

    lemma WellFormedFront(events: seq<Interaction>, n: nat)
      requires WellFormed(events) && n <= |events|
      ensures WellFormed(events[..n])
    {
      hide ValidNode;
    }

    /** For a genuine restored projection the label decides whether the request begins with its
        interactions. */
    lemma BaseOfGenuine(request: Request)
      requires Valid() && genuine && interactions.None?
      ensures Claims(prefix.value, request) <==> held <= request.interactions
      ensures Base(request) == if held <= request.interactions then held else []
    {
      hide Same, Sound, Projected;
      PrefixTaken(held, request.interactions);
      if Claims(prefix.value, request) {
        assert fingerprint(request.interactions[..prefix.value.count]) == fingerprint(held);
      }
    }

    /** `_verify_restored`: a restored projection is believed only for a request whose history begins
        with exactly the interactions it was made from. */
    method VerifyRestored(request: Request)
      requires Valid() && WellFormed(request.interactions)
      modifies this`state, this`interactions, this`prefix, this`held, this`genuine
      ensures Valid() && (state == old(state) || fresh(state))
      ensures interactions == Some(held) && held == old(Base(request))
      ensures state.View() == if old(Believed(request)) then old(state.View()) else Empty()
      ensures genuine <==> old(genuine) || !old(Believed(request))
      ensures old(genuine) && old(interactions.None?) ==> held == if old(held) <= request.interactions then old(held) else []
    {
      hide Projected, Same, Sound, WellFormed, Injective;
      if interactions.Some? {
        return;
      }
      if genuine {
        BaseOfGenuine(request);
      }
      hide Claims;
      ClaimsMeans(prefix.value, request);
      var p := prefix.value;
      if p.count <= |request.interactions| {
        var events := request.interactions[..p.count];
        if events[p.count - 1].cursor == p.cursor && events[p.count - 1].recordedAt == p.recordedAt && fingerprint(events) == p.digest {
          assert genuine ==> events == held;
          WellFormedFront(request.interactions, p.count);
          interactions, held := Some(events), events;
          return;
        }
      }
      Clear();
    }

    /** Projects what is new onto a state that holds the beginning, ranks and checks the scores. The
        feature cache of that state is emptied either way. */
    method Compute(request: Request, target: GraphState<T>, start: nat, fault: Option<nat>) returns (r: Result<seq<S>, Error>)
      requires WellFormed(request.interactions) && start <= |request.interactions| && target.features == map[]
      requires Sound(target.View())
      modifies target
      ensures r == if fault.Some? then Err(Interrupted) else ScoreFrom(net, request, old(target.View()), start)
      ensures r.Ok? ==> target.features == map[] && target.View() == Projected(net, old(target.View()), request.interactions[start..])
      ensures r.Ok? ==> Sound(target.View())
    {
      hide Projected, Sound, Ranked;
      SoundProjected(net, target.View(), request.interactions[start..]);
      var done := Project(net, target, request.interactions[start..], fault);
      if !done || fault.Some? {
        target.features := map[];
        return Err(Interrupted);
      }
      var scores := Rank(net, request, target);
      target.features := map[];
      if exists i | 0 <= i < |scores| :: !net.finiteScore(scores[i]) {
        return Err(InvalidScores);
      }
      return Ok(scores);
    }

    /** `score`. Whatever was scored, restored or failed before, the answer is the one of scoring from
        nothing, unless a restored file claimed the beginning of the request without being its
        projection: then, and only then, the answer continues from what that file held. A failure at any
        interaction, or while ranking, leaves an empty cache behind; a request that neither continues the
        cache nor is longer leaves the cache as it is. */
    method Score(request: Request, fault: Option<nat>) returns (r: Result<seq<S>, Error>)
      requires Valid() && WellFormed(request.interactions)
      modifies this`state, this`interactions, this`prefix, this`held, this`genuine, state
      ensures Valid() && (state == old(state) || fresh(state)) && interactions.Some?
      ensures fault.Some? ==> r == Err(Interrupted)
      ensures fault.None? && (old(genuine) || !old(Believed(request)) || !(old(Base(request)) <= request.interactions)) ==>
                r == ScoreOf(net, request)
      ensures fault.None? && old(Believed(request)) && old(Base(request)) <= request.interactions ==>
                r == ScoreFrom(net, request, old(state.View()), |old(Base(request))|)
      ensures r.Err? ==> held == [] && prefix.None?
      ensures r.Ok? ==> held == if old(Base(request)) <= request.interactions || |request.interactions| > |old(Base(request))|
                                then request.interactions else old(Base(request))
      ensures genuine <==> || old(genuine) || r.Err? || !old(Believed(request))
                           || (!(old(Base(request)) <= request.interactions) && |request.interactions| > |old(Base(request))|)
    {
      hide Projected, Same, Sound, ScoreOf, ScoreFrom, WellFormed, Injective, Base, Believed;
      VerifyRestored(request);
      ghost var g := state.View();
      var previous := |interactions.value|;
      var continues := previous <= |request.interactions| && request.interactions[..previous] == interactions.value;
      PrefixTaken(held, request.interactions);
      var target := state;
      if !continues {
        target := new GraphState<T>();
      }
      var start := if continues then previous else 0;
      Foreseen(net, request, g, held, continues);
      r := Compute(request, target, start, fault);
      if r.Err? {
        Clear();
      } else if continues || |request.interactions| > previous {
        Adopt(request, target, continues);
      }
    }

    /** The state of the request becomes the cache; the label stays only if nothing is new. */
    method Adopt(request: Request, target: GraphState<T>, continues: bool)
      requires Injective(fingerprint) && WellFormed(request.interactions) && interactions == Some(held)
      requires continues ==> held <= request.interactions
      requires prefix.Some? ==> held != [] && prefix.value == PrefixOf(fingerprint, held)
      requires target.features == map[] && Sound(target.View())
      requires genuine || !continues ==> Same(target.View(), Projected(net, Empty(), request.interactions))
      modifies this`state, this`interactions, this`prefix, this`held, this`genuine
      ensures Valid() && state == target && interactions == Some(held) && held == request.interactions
      ensures genuine == (old(genuine) || !continues)
    {
      hide Projected, Same, Sound, WellFormed, Injective;
      state := target;
      var previous := |interactions.value|;
      assert |request.interactions| == previous && continues ==> request.interactions == held;
      if |request.interactions| != previous || !continues {
        prefix := None;
      }
      interactions, held, genuine := Some(request.interactions), request.interactions, genuine || !continues;
    }

    /** `checkpoint`: only for interactions a request has confirmed, and not twice for the same ones. */
    method Checkpoint(after: Option<nat>) returns (c: Option<Checkpoint<T>>)
      requires Valid()
      modifies this`prefix
      ensures Valid()
      ensures c.None? <==> interactions.None? || held == [] || after == Some(fingerprint(held))
      ensures c.Some? ==> c.value.prefix == PrefixOf(fingerprint, held) && Labelled(c.value)
      ensures c.Some? ==> Encodes(c.value.content.rows, c.value.content.memories, state.View())
      ensures c.Some? && genuine ==> Genuine(net, fingerprint, c.value, held)
    {
      hide Projected, Same, Sound, Encodes;
      if interactions.None? || interactions.value == [] {
        return None;
      }
      if prefix.None? {
        prefix := Some(PrefixOf(fingerprint, interactions.value));
      }
      if after == Some(prefix.value.digest) {
        return None;
      }
      var rows, memories := EncodeRows(state);
      if genuine {
        EncodesSame(rows, memories, state.View(), Projected(net, Empty(), held));
      }
      return Some(Saved(ref, prefix.value, Stored(coordinates, ref, prefix.value, rows, memories)));
    }

    /** The checkpoint is of this model and coordinates and its content belongs to its label. */
    predicate Labelled(c: Checkpoint<T>) {
      c.model == ref && c.content.Stored? && c.content.coordinates == coordinates && c.content.model == ref && c.content.prefix == c.prefix
    }

    /** `restore`: another model or other coordinates are declined, damage is an error, and neither
        changes anything; otherwise the projection is taken on probation. A label names a non-empty
        history, which is what its constructor demands. */
    method Restore(c: Checkpoint<T>) returns (r: Result<bool, Error>)
      requires Valid() && c.prefix.count > 0
      modifies this`state, this`interactions, this`prefix, this`held, this`genuine
      ensures Valid() && (state == old(state) || fresh(state))
      ensures r == Ok(false) <==> c.model != ref || (c.content.Stored? && c.content.coordinates != coordinates)
      ensures r.Err? ==> r.error == DamagedCheckpoint
      ensures r == Ok(true) <==> Labelled(c) && Readable(net, c.content.rows, c.content.memories, c.prefix)
      ensures r == Ok(true) ==> interactions.None? && prefix == Some(c.prefix) && |c.content.rows| == |c.content.memories|
                                && state.View() == Built(c.content.rows, c.content.memories, |c.content.rows|)
      ensures r == Ok(true) ==> (genuine <==> exists events :: Genuine(net, fingerprint, c, events))
      ensures r == Ok(true) && genuine ==> Genuine(net, fingerprint, c, held)
      ensures r != Ok(true) ==> && state == old(state) && interactions == old(interactions) && prefix == old(prefix)
                                && held == old(held) && genuine == old(genuine)
    {
      hide Projected, Same, Sound, Encodes, Readable, Built;
      if c.model != ref {
        return Ok(false);
      }
      if c.content.Damaged? {
        return Err(DamagedCheckpoint);
      }
      if c.content.coordinates != coordinates {
        return Ok(false);
      }
      if c.content.model != ref || c.content.prefix != c.prefix {
        return Err(DamagedCheckpoint);
      }
      var read := ReadNodes(net, c.content.rows, c.content.memories, c.prefix);
      if read.Err? {
        return Err(read.error);
      }
      ReadableSound(net, c.content.rows, c.content.memories, c.prefix);
      state, interactions, prefix, genuine := read.value, None, Some(c.prefix), false;
      if events :| Genuine(net, fingerprint, c, events) {
        CheckpointRoundTrip(net, fingerprint, c, events);
        held, genuine := events, true;
      }
      return Ok(true);
    }
  }

  /** What can be read is a sound graph, whoever wrote it. */
  lemma ReadableSound<T, S>(net: Network<T, S>, rows: seq<Row>, memories: seq<T>, prefix: Prefix)
    requires Readable(net, rows, memories, prefix)
    ensures |rows| == |memories| && Sound(Built(rows, memories, |rows|))
  {
    hide Built, ValidNode, Linkage, Neighbors, Mutual, Readable;
    ReadableRows(net, rows, memories, prefix);
    var g := Built(rows, memories, |rows|);
    BuiltKeys(rows, memories, |rows|);
    forall k | k in g.nodes ensures g.nodes[k].key == k && ValidNode(g.nodes[k]) {
      var i :| 0 <= i < |rows| && rows[i].key == k;
      BuiltAt(rows, memories, |rows|, i);
    }
    forall k, o | o in Neighbors(g, k) ensures Linkage(g, k, o) {
      ReadableLinks(rows, memories, k, o);
    }
  }

  lemma ReadableRows<T, S>(net: Network<T, S>, rows: seq<Row>, memories: seq<T>, prefix: Prefix)
    requires Readable(net, rows, memories, prefix)
    ensures |rows| == |memories| && forall i, j :: 0 <= i < j < |rows| ==> rows[i].key != rows[j].key
    ensures forall i :: 0 <= i < |rows| ==> ValidNode(Node(rows[i].key, rows[i].text))
    ensures forall i :: 0 <= i < |rows| ==> Mutual(rows, i)
  {
    hide ValidNode, Mutual;
  }

  lemma ReadableLinks<T>(rows: seq<Row>, memories: seq<T>, k: NodeKey, o: NodeKey)
    requires |rows| == |memories| && forall i, j :: 0 <= i < j < |rows| ==> rows[i].key != rows[j].key
    requires forall i :: 0 <= i < |rows| ==> Mutual(rows, i)
    requires o in Neighbors(Built(rows, memories, |rows|), k)
    ensures Linkage(Built(rows, memories, |rows|), k, o)
  {
    hide Built, Mutual;
    BuiltKeys(rows, memories, |rows|);
    var i :| 0 <= i < |rows| && rows[i].key == k;
    MutualAt(rows, memories, i, Built(rows, memories, |rows|).neighbors);
  }

  // ---------------------------------------------------------------- a projection that scores and is not restored

  /** Scoring a history, saving the projection and loading it into another policy of the same model.
      What decides is not the scores, which are finite here, but the memories. */
  method ScoreSaveRestore<T, S>(net: Network<T, S>, ref: string, coordinates: string, fingerprint: seq<Interaction> -> nat,
                                request: Request) returns (r: Result<bool, Error>)
    requires Injective(fingerprint) && WellFormed(request.interactions) && request.interactions != []
    requires ScoreOf(net, request).Ok?
    ensures var g := Projected(net, Empty(), request.interactions);
            r == if forall k :: k in g.memories ==> net.finite(g.memories[k]) then Ok(true) else Err(DamagedCheckpoint)
  {
    hide Projected, ScoreOf, ScoreFrom, Readable, Encodes, Sound, Same, Built, WellFormed, TGNMemoryPolicy.Valid;
    var policy := new TGNMemoryPolicy(net, ref, coordinates, fingerprint);
    var scores := policy.Score(request, None);
    var saved := policy.Checkpoint(None);
    CheckpointRoundTrip(net, fingerprint, saved.value, request.interactions);
    var other := new TGNMemoryPolicy(net, ref, coordinates, fingerprint);
    r := other.Restore(saved.value);
    match r {
      case Ok(restored) => { assert restored; }
      case Err(_) => {}
    }
  }

  /** A number, or what is left of one after an overflow. */
  datatype Value = Number | NotANumber

  function Mix(a: Value, b: Value): Value {
    if a.Number? then b else NotANumber
  }

  /** A network whose recurrent cell has overflowed; everything else passes on what it is given. */
  const OVERFLOWING: Network<Value, Value> := Network(
    Number, node => Number, (now, before) => Number,
    (a, b, x, y, relation, s, t, value) => Mix(Mix(a, b), Mix(Mix(x, y), Mix(s, t))),
    (message, memory) => NotANumber,
    (around: map<NodeKey, Value>) => if NotANumber in around.Values then NotANumber else Number,
    (memory, neighborhood, feature, age) => Mix(Mix(memory, neighborhood), Mix(feature, age)),
    (request, goals, candidate, encoded) => encoded,
    (value: Value) => value.Number?, (value: Value) => value.Number?)

  /** Two entities meet, and a memory that has to do with neither is ranked. */
  const MEETING := Interaction(1, 0, Node(NodeKey("entity", "a"), "a"), Node(NodeKey("entity", "b"), "b"), "entity", 0)

  const UNRELATED := Request("q", [], 0, [Candidate("m", "m", 0, 0, "")], [MEETING])

  /** One interaction, projected from nothing. */
  lemma ProjectedOne<T, S>(net: Network<T, S>, e: Interaction)
    ensures Projected(net, Empty(), [e]) == After(net, Empty(), e)
  {
    hide After;
    assert [e][..0] == [] && Projected(net, Empty(), []) == Empty();
  }

  /** One candidate and no goal: one score. */
  lemma OneScore<T, S>(net: Network<T, S>, request: Request, g: Graph<T>)
    requires Sound(g) && request.focus == [] && |request.candidates| == 1
    ensures var c := request.candidates[0];
            Ranked(net, request, g) == [net.recommend(request, [], c, Embedded(net, g, CandidateNode(c), request.observedAt))]
  {
    hide Sound, Embedded;
    assert Scores(net, request, g, 0) == [];
  }

  /** The answer is finite and the memories it leaves are not. */
  lemma ScoredUnsaved()
    ensures WellFormed(UNRELATED.interactions) && ScoreOf(OVERFLOWING, UNRELATED) == Ok([Number])
    ensures var g := Projected(OVERFLOWING, Empty(), UNRELATED.interactions);
            MEETING.source.key in g.memories && !OVERFLOWING.finite(g.memories[MEETING.source.key])
  {
    NamesValid();
    EmptySound<Value>();
    ProjectedOne(OVERFLOWING, MEETING);
    AfterMeeting();
    hide After, Sound, Embedded, Projected, ValidNode;
    SoundProjected(OVERFLOWING, Empty(), UNRELATED.interactions);
    var g := Projected(OVERFLOWING, Empty(), UNRELATED.interactions);
    UnrelatedEmbedded(g);
    OneScore(OVERFLOWING, UNRELATED, g);
  }

  lemma NamesValid()
    ensures ValidNode(MEETING.source) && ValidNode(MEETING.target) && ValidNode(HEARING.source)
  {
    assert MEETING.source.key.identity[0] != ' ' && MEETING.target.key.identity[0] != ' ' && HEARING.source.key.identity[0] != ' ';
  }

  lemma AfterMeeting()
    ensures var g := After(OVERFLOWING, Empty(), MEETING); var k := CandidateNode(UNRELATED.candidates[0]).key;
            && MEETING.source.key in g.memories && g.memories[MEETING.source.key] == NotANumber
            && k !in g.memories && Neighbors(g, k) == {}
  {
    hide After, Neighbors, LinksAfter, NodesAfter;
    AfterShape(OVERFLOWING, Empty(), MEETING);
    var k := CandidateNode(UNRELATED.candidates[0]).key;
    NeighborsAfter(OVERFLOWING, Empty(), MEETING, k);
    NothingBeside<Value>(k);
  }

  lemma NothingBeside<T>(k: NodeKey)
    ensures Neighbors(Empty<T>(), k) == {}
  {}

  lemma UnrelatedEmbedded(g: Graph<Value>)
    requires Sound(g)
    requires var k := CandidateNode(UNRELATED.candidates[0]).key; k !in g.memories && Neighbors(g, k) == {}
    ensures Embedded(OVERFLOWING, g, CandidateNode(UNRELATED.candidates[0]), UNRELATED.observedAt) == Number
  {
    hide Sound;
  }

  /** So saving it is no use: every policy of the model rejects the checkpoint as damaged. */
  method FiniteScoresAreNotEnough(fingerprint: seq<Interaction> -> nat) returns (r: Result<bool, Error>)
    requires Injective(fingerprint)
    ensures r == Err(DamagedCheckpoint)
  {
    ScoredUnsaved();
    hide ScoreOf, Projected;
    r := ScoreSaveRestore(OVERFLOWING, "model", "coordinates", fingerprint, UNRELATED);
  }

  // ---------------------------------------------------------------- a label that is believed

  /** A network that counts: a memory is the number of interactions of its node, and is its score. */
  const COUNTING: Network<int, int> := Network(
    0, node => 0, (now, before) => 0, (a, b, x, y, relation, s, t, value) => 0, (message, memory: int) => memory + 1,
    (around: map<NodeKey, int>) => 0, (memory: int, neighborhood, feature, age) => memory,
    (request, goals, candidate, encoded: int) => encoded, (value: int) => true, (value: int) => true)

  /** One interaction of a memory, which is then ranked. */
  const HEARING := Interaction(1, 0, Node(NodeKey("memory", "m"), "m"), Node(NodeKey("entity", "b"), "b"), "entity", 0)

  const HEARD := Request("q", [], 0, [Candidate("m", "m", 0, 0, "")], [HEARING])

  /** A file with the label of that history and a graph of its own. */
  function Foreign(fingerprint: seq<Interaction> -> nat): Checkpoint<int> {
    var prefix := PrefixOf(fingerprint, HEARD.interactions);
    Saved("model", prefix, Stored("coordinates", "model", prefix, [Row(HEARING.source.key, "m", 0, {})], [7]))
  }

  lemma CountedOnce()
    ensures WellFormed(HEARD.interactions) && ScoreOf(COUNTING, HEARD) == Ok([1])
  {
    NamesValid();
    EmptySound<int>();
    ProjectedOne(COUNTING, HEARING);
    AfterShape(COUNTING, Empty(), HEARING);
    var g := Projected(COUNTING, Empty(), HEARD.interactions);
    assert g.memories[HEARING.source.key] == 1;
    hide After, Sound, Projected, ValidNode, MemoriesAfter, NodesAfter, LinksAfter;
    SoundProjected(COUNTING, Empty(), HEARD.interactions);
    MemoryScored(g);
  }

  lemma MemoryScored(g: Graph<int>)
    requires Sound(g) && HEARING.source.key in g.memories
    ensures Ranked(COUNTING, HEARD, g) == [g.memories[HEARING.source.key]]
  {
    OneScore(COUNTING, HEARD, g);
  }

  lemma ForeignRead(fingerprint: seq<Interaction> -> nat)
    ensures var c := Foreign(fingerprint).content;
            && Readable(COUNTING, c.rows, c.memories, c.prefix)
            && HEARING.source.key in Built(c.rows, c.memories, 1).memories
            && Built(c.rows, c.memories, 1).memories[HEARING.source.key] == 7
  {
    NamesValid();
    hide ValidNode;
    var c := Foreign(fingerprint).content;
    assert Node(c.rows[0].key, c.rows[0].text) == HEARING.source;
    BuiltStep(c.rows, c.memories, 0);
  }

  lemma ForeignScored(g: Graph<int>)
    requires WellFormed(HEARD.interactions) && Sound(g) && HEARING.source.key in g.memories && g.memories[HEARING.source.key] == 7
    ensures ScoreFrom(COUNTING, HEARD, g, 1) == Ok([7])
  {
    hide Sound, Ranked;
    assert HEARD.interactions[1..] == [];
    MemoryScored(g);
  }

  /** A policy that scores from nothing and one that has restored the file, asked the same. */
  method ForeignFileIsBelieved(fingerprint: seq<Interaction> -> nat) returns (scored: Result<seq<int>, Error>, restored: Result<seq<int>, Error>)
    requires Injective(fingerprint)
    ensures scored == Ok([1]) && restored == Ok([7])
  {
    CountedOnce();
    ForeignRead(fingerprint);
    hide Projected, ScoreOf, ScoreFrom, Readable, Sound, Same, Built, WellFormed, TGNMemoryPolicy.Valid;
    var policy := new TGNMemoryPolicy(COUNTING, "model", "coordinates", fingerprint);
    scored := policy.Score(HEARD, None);
    var other := new TGNMemoryPolicy(COUNTING, "model", "coordinates", fingerprint);
    var taken := other.Restore(Foreign(fingerprint));
    assert taken == Ok(true);
    assert other.Claims(other.prefix.value, HEARD) by {
      assert HEARD.interactions[..1] == HEARD.interactions;
    }
    other.Sane();
    ForeignScored(other.state.View());
    restored := other.Score(HEARD, None);
  }

  lemma EmptyProjected<T, S>(net: Network<T, S>)
    ensures Projected(net, Empty(), []) == Empty() && Same(Empty<T>(), Empty<T>())
  {}

  lemma RankedSame<T, S>(net: Network<T, S>, request: Request, a: Graph<T>, b: Graph<T>)
    requires Sound(a) && Sound(b) && Same(a, b)
    ensures Ranked(net, request, a) == Ranked(net, request, b)
  {
    hide Sound, Same, Scores;
    SameScores(net, request, a, b, |request.candidates|);
  }

  lemma PrefixTaken(part: seq<Interaction>, whole: seq<Interaction>)
    ensures part <= whole <==> |part| <= |whole| && whole[..|part|] == part
  {}
}
