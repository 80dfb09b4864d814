/** The shared context of a host (src/aurora_kernel/context.py): direct writes and optimistic
    transactions, which may be nested, over one tree of values. */
module SharedContext {
  import opened Common

  type Data<V> = map<string, map<string, V>>

  datatype Write<V> = Make(ns: string) | Put(ns: string, key: string, value: V) | Remove(ns: string, key: string)

  type Key = (string, string)

  datatype Change = Change(revision: nat, source: string, keys: set<Key>)

  datatype Error = InvalidName | Missing | Conflict

  // ---------------------------------------------------------------- serial execution

  function Apply<V>(d: Data<V>, w: Write<V>): Data<V> {
    match w
    case Make(ns) => if ns in d then d else d[ns := map[]]
    case Put(ns, key, value) => if ns in d then d[ns := d[ns][key := value]] else d
    case Remove(ns, key) => if ns in d then d[ns := d[ns] - {key}] else d
  }

  function Run<V>(d: Data<V>, writes: seq<Write<V>>): Data<V> {
    if writes == [] then d else Apply(Run(d, writes[..|writes| - 1]), writes[|writes| - 1])
  }

  /** The committed changes, one after the other in the order of their revisions. */
  function Serial<V>(d: Data<V>, history: seq<seq<Write<V>>>): Data<V> {
    if history == [] then d else Run(Serial(d, history[..|history| - 1]), history[|history| - 1])
  }

  function Flatten<V>(history: seq<seq<Write<V>>>): seq<Write<V>> {
    if history == [] then [] else Flatten(history[..|history| - 1]) + history[|history| - 1]
  }

  function KeyOf<V>(w: Write<V>): Key {
    match w
    case Make(ns) => (ns, "")
    case Put(ns, key, _) => (ns, key)
    case Remove(ns, key) => (ns, key)
  }

  function KeysOf<V>(writes: seq<Write<V>>): set<Key> {
    if writes == [] then {} else KeysOf(writes[..|writes| - 1]) + {KeyOf(writes[|writes| - 1])}
  }

  lemma {:induction false} RunAppend<V>(d: Data<V>, a: seq<Write<V>>, b: seq<Write<V>>)
    ensures Run(d, a + b) == Run(Run(d, a), b)
    ensures KeysOf(a + b) == KeysOf(a) + KeysOf(b)
  {
    hide Apply;
    if b == [] {
      assert a + b == a;
    } else {
      var m := |b| - 1;
      assert (a + b)[..|a + b| - 1] == a + b[..m];
      RunAppend(d, a, b[..m]);
    }
  }

  /** Serial execution of batches is execution of all their writes in a row. */
  lemma {:induction false} SerialFlatten<V>(d: Data<V>, history: seq<seq<Write<V>>>)
    ensures Serial(d, history) == Run(d, Flatten(history))
  {
    if history != [] {
      var m := |history| - 1;
      SerialFlatten(d, history[..m]);
      RunAppend(d, Flatten(history[..m]), history[m]);
    }
  }

  lemma SerialNext<V>(d: Data<V>, history: seq<seq<Write<V>>>, batch: seq<Write<V>>)
    ensures Serial(d, history + [batch]) == Run(Serial(d, history), batch)
    ensures Flatten(history + [batch]) == Flatten(history) + batch
    ensures KeysOf(Flatten(history + [batch])) == KeysOf(Flatten(history)) + KeysOf(batch)
  {
    assert (history + [batch])[..|history|] == history;
    RunAppend(d, Flatten(history), batch);
  }

  /** No key was named exactly when nothing was written. */
  lemma {:induction false} ChangedIff<V>(history: seq<seq<Write<V>>>)
    requires forall i :: 0 <= i < |history| ==> history[i] != []
    ensures KeysOf(Flatten(history)) == {} <==> history == []
    ensures Flatten(history) == [] <==> history == []
  {
    if history != [] {
      var batch := history[|history| - 1];
      var writes := Flatten(history);
      assert writes == Flatten(history[..|history| - 1]) + batch;
      assert KeyOf(writes[|writes| - 1]) in KeysOf(writes);
    }
  }

  function Value<V>(d: Data<V>, ns: string, key: string): Option<V> {
    if ns in d && key in d[ns] then Some(d[ns][key]) else None
  }

  /** What a batch does not name, it does not touch: neither values nor the existence of namespaces,
      and no namespace ever goes away. */
  lemma {:induction false} OutsideUntouched<V>(d: Data<V>, writes: seq<Write<V>>, ns: string, key: string)
    ensures (ns, key) !in KeysOf(writes) ==> Value(Run(d, writes), ns, key) == Value(d, ns, key)
    ensures (ns, "") !in KeysOf(writes) ==> (ns in Run(d, writes) <==> ns in d)
    ensures ns in d ==> ns in Run(d, writes)
  {
    if writes != [] {
      OutsideUntouched(d, writes[..|writes| - 1], ns, key);
    }
  }

  lemma RunOne<V>(d: Data<V>, w: Write<V>)
    ensures Run(d, [w]) == Apply(d, w) && KeysOf([w]) == {KeyOf(w)}
  {
    assert [w][..0] == [];
  }

  /** A staged context's data is what the history gave at that revision. */
  ghost predicate Began<V>(base: Data<V>, history: seq<seq<Write<V>>>, staged: Data<V>, version: nat) {
    version <= |history| && staged == Serial(base, history[..version])
  }

  lemma BeganLater<V>(base: Data<V>, history: seq<seq<Write<V>>>, later: seq<seq<Write<V>>>, staged: Data<V>, version: nat)
    requires Began(base, history, staged, version) && history <= later
    ensures Began(base, later, staged, version)
  {
    hide Serial;
    assert later[..version] == history[..version];
  }

  ghost predicate OthersKept<V>(before: Data<V>, after: Data<V>, ns: string, key: string) {
    forall n, k :: n != ns || k != key ==> Value(after, n, k) == Value(before, n, k)
  }

  /** What is read under a key is what the last write naming it assigned, or nothing if that was a deletion. */
  lemma LastWrite<V>(d: Data<V>, writes: seq<Write<V>>, i: nat, ns: string, key: string)
    requires i < |writes| && (writes[i].Put? || writes[i].Remove?) && writes[i].ns == ns && writes[i].key == key
    requires ns in Run(d, writes[..i]) && (ns, key) !in KeysOf(writes[i + 1..])
    ensures ns in Run(d, writes)
    ensures if writes[i].Put? then key in Run(d, writes)[ns] && Run(d, writes)[ns][key] == writes[i].value
            else key !in Run(d, writes)[ns]
  {
    hide Run, KeysOf, Apply;
    var before, rest := Run(d, writes[..i]), writes[i + 1..];
    var written := Run(before, [writes[i]]);
    assert writes[..i] + [writes[i]] + rest == writes;
    RunAppend(d, writes[..i], [writes[i]]);
    RunAppend(d, writes[..i] + [writes[i]], rest);
    RunOne(before, writes[i]);
    Written(before, writes[i]);
    OutsideUntouched(written, rest, ns, key);
    assert Value(Run(d, writes), ns, key) == Value(written, ns, key);
  }

  lemma Written<V>(d: Data<V>, w: Write<V>)
    requires (w.Put? || w.Remove?) && w.ns in d
    ensures w.ns in Apply(d, w)
    ensures if w.Put? then w.key in Apply(d, w)[w.ns] && Apply(d, w)[w.ns][w.key] == w.value else w.key !in Apply(d, w)[w.ns]
  {}

  // ---------------------------------------------------------------- one context

  class Context<V(==)> {
    const validName: string -> bool
    ghost const base: Data<V>
    var data: Data<V>
    var revision: nat
    var changed: set<Key>
    var lastChange: Option<Change>
    /** The writes of each recorded change. */
    ghost var history: seq<seq<Write<V>>>

    ghost predicate Valid()
      reads this
    {
      && (forall i :: 0 <= i < |history| ==> history[i] != [])
      && data == Serial(base, history) && revision == |history| && changed == KeysOf(Flatten(history))
      && (lastChange.None? <==> history == [])
      && (lastChange.Some? ==> lastChange.value.revision == revision && lastChange.value.keys == KeysOf(history[revision - 1]))
    }

    /** A new context, empty or staged over a copy of another's data. */
    constructor (data: Data<V>, validName: string -> bool)
      ensures Valid() && this.data == data == base && history == [] && this.validName == validName
    {
      this.validName, base := validName, data;
      this.data, revision, changed, lastChange, history := data, 0, {}, None, [];
    }

    /** `_record`, together with the new data it accounts for. */
    method Record(source: string, data: Data<V>, keys: set<Key>, ghost writes: seq<Write<V>>)
      requires Valid() && writes != [] && data == Run(this.data, writes) && keys == KeysOf(writes)
      modifies this
      ensures Valid() && history == old(history) + [writes]
      ensures lastChange == Some(Change(revision, source, keys))
    {
      hide Serial, Flatten, KeysOf, Run;
      SerialNext(base, history, writes);
      this.data := data;
      revision := revision + 1;
      changed := changed + keys;
      lastChange := Some(Change(revision, source, keys));
      history := history + [writes];
    }

    /** `ensure`: an existing namespace is no change. */
    method Ensure(source: string, ns: string) returns (r: Option<Error>)
      requires Valid()
      modifies this
      ensures Valid() && (r.None? <==> validName(ns)) && (r.Some? ==> r == Some(InvalidName))
      ensures history == old(history) + if r.None? && ns !in old(data) then [[Make(ns)]] else []
      ensures r.None? ==> ns in data
      ensures data.Keys == old(data.Keys) + (if r.None? then {ns} else {}) && (r.None? && ns !in old(data) ==> data[ns] == map[])
      ensures forall n, k :: Value(data, n, k) == Value(old(data), n, k)
      ensures lastChange == if r.None? && ns !in old(data) then Some(Change(revision, source, {(ns, "")})) else old(lastChange)
    {
      if !validName(ns) {
        assert history + [] == history;
        return Some(InvalidName);
      }
      if ns !in data {
        RunOne(data, Make(ns));
        Record(source, data[ns := map[]], {(ns, "")}, [Make(ns)]);
      } else {
        assert history + [] == history;
      }
      return None;
    }

    /** An assignment through a namespace view. */
    method Set(source: string, ns: string, key: string, value: V) returns (r: Option<Error>)
      requires Valid()
      modifies this
      ensures Valid()
      ensures r == if ns !in old(data) then Some(Missing) else if !validName(key) then Some(InvalidName) else None
      ensures history == old(history) + if r.None? then [[Put(ns, key, value)]] else []
      ensures data.Keys == old(data.Keys) && OthersKept(old(data), data, ns, key)
      ensures r.None? ==> ns in data && key in data[ns] && data[ns][key] == value
      ensures r.Some? ==> data == old(data)
      ensures lastChange == if r.None? then Some(Change(revision, source, {(ns, key)})) else old(lastChange)
    {
      if ns !in data || !validName(key) {
        assert history + [] == history;
        return if ns !in data then Some(Missing) else Some(InvalidName);
      }
      RunOne(data, Put(ns, key, value));
      Record(source, data[ns := data[ns][key := value]], {(ns, key)}, [Put(ns, key, value)]);
      return None;
    }

    /** A deletion through a namespace view. */
    method Delete(source: string, ns: string, key: string) returns (r: Option<Error>)
      requires Valid()
      modifies this
      ensures Valid()
      ensures r == if ns in old(data) && key in old(data)[ns] then None else Some(Missing)
      ensures history == old(history) + if r.None? then [[Remove(ns, key)]] else []
      ensures data.Keys == old(data.Keys) && OthersKept(old(data), data, ns, key)
      ensures ns in data ==> key !in data[ns]
      ensures lastChange == if r.None? then Some(Change(revision, source, {(ns, key)})) else old(lastChange)
    {
      if ns !in data || key !in data[ns] {
        assert history + [] == history;
        return Some(Missing);
      }
      RunOne(data, Remove(ns, key));
      Record(source, data[ns := data[ns] - {key}], {(ns, key)}, [Remove(ns, key)]);
      return None;
    }

    /** The first half of `transaction`: a staged context over the data of the current revision. */
    method Begin(expected: Option<nat>) returns (staged: Option<Context<V>>, version: nat)
      requires Valid()
      ensures staged.None? <==> expected.Some? && expected.value != revision
      ensures staged.Some? ==> fresh(staged.value) && staged.value.Valid() && version == revision
      ensures staged.Some? ==> staged.value.history == [] && staged.value.base == staged.value.data == data && staged.value.validName == validName
    {
      version := revision;
      if expected.Some? && expected.value != version {
        return None, version;
      }
      var c := new Context<V>(data, validName);
      return Some(c), version;
    }

    /** The staged context started from what this one was at a revision. */
    ghost predicate StagedFrom(staged: Context<V>, version: nat)
      reads this
    {
      Began(base, history, staged.base, version)
    }

    /** The second half: nothing staged is no change; a changed revision is a conflict and changes
        nothing; otherwise all staged writes become one change, and what the transaction read was
        exactly the state just before it. */
    method Commit(source: string, staged: Context<V>, version: nat) returns (r: Option<Error>)
      requires Valid() && staged.Valid() && staged != this && StagedFrom(staged, version)
      modifies this
      ensures Valid()
      ensures r == if staged.history != [] && old(revision) != version then Some(Conflict) else None
      ensures history == old(history) + if staged.history != [] && r.None? then [Flatten(staged.history)] else []
      ensures staged.history != [] && r.None? ==> staged.base == old(data) && data == staged.data
      ensures lastChange == if staged.history != [] && r.None? then Some(Change(revision, source, staged.changed)) else old(lastChange)
    {
      ChangedIff(staged.history);
      if staged.changed == {} {
        assert history + [] == history;
        return None;
      }
      if revision != version {
        assert history + [] == history;
        return Some(Conflict);
      }
      assert history[..version] == history;
      SerialFlatten(staged.base, staged.history);
      Record(source, staged.data, staged.changed, Flatten(staged.history));
      return None;
    }

    /** Other callers commit their changes, one after the other. */
    method Pass(changes: seq<seq<Write<V>>>)
      requires Valid() && forall change :: change in changes ==> change != []
      modifies this
      ensures Valid() && history == old(history) + changes
    {
      hide Valid, Serial, Run, KeysOf;
      assert history + changes[..0] == history;
      for i := 0 to |changes|
        invariant Valid() && history == old(history) + changes[..i]
      {
        assert changes[i] in changes;
        Record("another", Run(data, changes[i]), KeysOf(changes[i]), changes[i]);
      }
      assert changes[..|changes|] == changes;
    }

    /** The fields are staged one by one; the lock is free between them, and other callers may commit. */
    method Stage(source: string, ns: string, values: seq<(string, V)>, rivals: nat -> seq<seq<Write<V>>>, staged: Context<V>)
      returns (r: Option<Error>, ghost passed: seq<seq<Write<V>>>)
      requires Valid() && staged.Valid() && staged != this && staged.history == []
      requires forall n, change :: change in rivals(n) ==> change != []
      modifies this, staged
      ensures Valid() && history == old(history) + passed && staged.Valid()
      ensures r == FirstBad(old(staged.data), staged.validName, ns, values)
      ensures r.None? ==> Flatten(staged.history) == Puts(ns, values) && (staged.history == [] <==> values == [])
                          && passed == Passing(rivals, |values|)
      ensures r.Some? ==> exists n :: 0 < n <= |values| && passed == Passing(rivals, n)
    {
      hide Serial, Run, KeysOf, Valid, Flatten, Puts, FirstBad, Apply;
      passed := [];
      NothingStaged(staged.data, staged.validName, ns, values, rivals);
      ghost var initially := staged.data;
      for i := 0 to |values|
        invariant Valid() && history == old(history) + passed && passed == Passing(rivals, i)
        invariant staged.Valid() && staged.data.Keys == initially.Keys
        invariant Flatten(staged.history) == Puts(ns, values[..i]) && (staged.history == [] <==> i == 0)
        invariant FirstBad(initially, staged.validName, ns, values[..i]).None?
      {
        PassingNext(rivals, i);
        Pass(rivals(i));
        assert old(history) + passed + rivals(i) == old(history) + (passed + rivals(i));
        passed := passed + rivals(i);
        BadNext(initially, staged.validName, ns, values, i);
        ghost var before := staged.history;
        var failed := staged.Set(source, ns, values[i].0, values[i].1);
        if failed.Some? {
          return failed, passed;
        }
        SerialNext(staged.base, before, [Put(ns, values[i].0, values[i].1)]);
        PutsNext(ns, values, i);
      }
      assert values[..|values|] == values;
      return None, passed;
    }

    /** `NamespaceView.update`: all fields become one change, or none do. Between the fields and before the
        end other callers may commit `rivals(0)`, `rivals(1)`, …; one such change is a conflict, whatever it
        touches. */
    method Update(source: string, ns: string, values: seq<(string, V)>, rivals: nat -> seq<seq<Write<V>>>)
      returns (r: Option<Error>, ghost passed: seq<seq<Write<V>>>)
      requires Valid() && forall n, change :: change in rivals(n) ==> change != []
      modifies this
      ensures Valid() && history == old(history) + passed + if r.None? && values != [] then [Puts(ns, values)] else []
      ensures var bad := FirstBad(old(data), validName, ns, values);
              r == if bad.Some? then bad else if values != [] && passed != [] then Some(Conflict) else None
      ensures if FirstBad(old(data), validName, ns, values).Some? then exists n :: 0 < n <= |values| && passed == Passing(rivals, n)
              else passed == Passing(rivals, |values| + 1)
    {
      hide Serial, Run, KeysOf, Valid, Flatten, FirstBad, Puts;
      Revisions();
      var begun, version := Begin(None);
      var staged := begun.value;
      BeginMeans(this, version);
      ghost var first := history;
      r, passed := Stage(source, ns, values, rivals, staged);
      if r.Some? {
        assert history + [] == history;
        return;
      }
      PassingNext(rivals, |values|);
      Pass(rivals(|values|));
      assert first + passed + rivals(|values|) == first + (passed + rivals(|values|));
      passed := passed + rivals(|values|);
      BeganLater(base, first, history, staged.base, version);
      Revisions();
      r := Commit(source, staged, version);
    }

    lemma Revisions()
      requires Valid()
      ensures revision == |history|
    {}
  }

  lemma PutsNext<V>(ns: string, values: seq<(string, V)>, i: nat)
    requires i < |values|
    ensures Puts(ns, values[..i + 1]) == Puts(ns, values[..i]) + [Put(ns, values[i].0, values[i].1)]
  {
    assert values[..i + 1][..i] == values[..i];
  }

  lemma NothingStaged<V>(data: Data<V>, validName: string -> bool, ns: string, values: seq<(string, V)>, rivals: nat -> seq<seq<Write<V>>>)
    ensures Flatten<V>([]) == [] && Puts(ns, values[..0]) == [] && Passing(rivals, 0) == []
    ensures FirstBad(data, validName, ns, values[..0]).None?
  {}

  /** What assigning the fields one by one fails with: the namespace is missing, or a name is invalid. */
  function FirstBad<V>(data: Data<V>, validName: string -> bool, ns: string, values: seq<(string, V)>): Option<Error> {
    if values == [] then None
    else if ns !in data then Some(Missing)
    else if exists i | 0 <= i < |values| :: !validName(values[i].0) then Some(InvalidName)
    else None
  }

  lemma BadNext<V>(data: Data<V>, validName: string -> bool, ns: string, values: seq<(string, V)>, i: nat)
    requires i < |values| && FirstBad(data, validName, ns, values[..i]).None?
    ensures ns !in data ==> FirstBad(data, validName, ns, values) == Some(Missing)
    ensures ns in data && !validName(values[i].0) ==> FirstBad(data, validName, ns, values) == Some(InvalidName)
    ensures ns in data && validName(values[i].0) ==> FirstBad(data, validName, ns, values[..i + 1]).None?
  {
    forall j | 0 <= j < i ensures ns in data ==> validName(values[j].0) {
      assert values[..i][j] == values[j];
    }
  }

  /** What other callers commit in the first n moments. */
  function Passing<V>(rivals: nat -> seq<seq<Write<V>>>, n: nat): seq<seq<Write<V>>> {
    if n == 0 then [] else Passing(rivals, n - 1) + rivals(n - 1)
  }

  lemma PassingNext<V>(rivals: nat -> seq<seq<Write<V>>>, n: nat)
    ensures Passing(rivals, n + 1) == Passing(rivals, n) + rivals(n)
  {}

  function Puts<V>(ns: string, values: seq<(string, V)>): seq<Write<V>> {
    if values == [] then []
    else Puts(ns, values[..|values| - 1]) + [Put(ns, values[|values| - 1].0, values[|values| - 1].1)]
  }

  // ---------------------------------------------------------------- every interleaving

  /** One step of anyone: a write to a context, the start of a transaction on it, the end of one. */
  datatype Step<V> =
    | Ensuring(at: nat, source: string, ns: string)
    | Setting(at: nat, source: string, ns: string, key: string, value: V)
    | Deleting(at: nat, source: string, ns: string, key: string)
    | Starting(at: nat, expected: Option<nat>)
    | Finishing(at: nat, source: string)
    | Abandoning(at: nat)

  /** An open transaction: its staged context, where it is staged from, and since which revision. */
  datatype Staging = Staging(child: nat, parent: nat, version: nat)

  ghost predicate Sane<V>(contexts: seq<Context<V>>, open: seq<Staging>)
    reads contexts
  {
    && (forall i, j :: 0 <= i < j < |contexts| ==> contexts[i] != contexts[j])
    && (forall i :: 0 <= i < |contexts| ==> contexts[i].Valid())
    && Stagings(contexts, open, Histories(contexts))
  }

  function Find(open: seq<Staging>, child: nat): (at: Option<nat>)
    ensures at.Some? ==> at.value < |open| && open[at.value].child == child
  {
    if open == [] then None
    else if open[|open| - 1].child == child then Some(|open| - 1)
    else Find(open[..|open| - 1], child)
  }

  /** Any number of callers writing and running transactions, nested to any depth, in any order: the
      shared context always is the serial execution of its committed changes, its history only grows,
      and each step adds at most one change. */
  method Interleave<V>(root: Context<V>, steps: seq<Step<V>>)
    requires root.Valid()
    modifies root
    ensures root.Valid() && old(root.history) <= root.history && |root.history| <= |old(root.history)| + |steps|
    ensures root.data == Serial(root.base, root.history)
  {
    hide Sane, Context.Valid, Serial;
    var contexts: seq<Context<V>> := [root];
    var open: seq<Staging> := [];
    SaneFirst(root);
    for i := 0 to |steps|
      invariant |contexts| > 0 && contexts[0] == root && Sane(contexts, open)
      invariant forall j :: 0 < j < |contexts| ==> fresh(contexts[j])
      invariant old(root.history) <= root.history && |root.history| <= |old(root.history)| + i
      modifies root
    {
      var after, left := Advance(contexts, open, steps[i]);
      assert after[0] == after[..|contexts|][0] == root;
      assert forall j :: 0 < j < |contexts| ==> after[j] == after[..|contexts|][j];
      contexts, open := after, left;
    }
    SaneRoot(contexts, open);
  }

  lemma SaneFirst<V>(root: Context<V>)
    requires root.Valid()
    ensures Sane([root], [])
  {
    hide Context.Valid;
  }

  lemma SaneRoot<V>(contexts: seq<Context<V>>, open: seq<Staging>)
    requires |contexts| > 0 && Sane(contexts, open)
    ensures contexts[0].Valid() && contexts[0].data == Serial(contexts[0].base, contexts[0].history)
  {
    hide Serial;
  }

  /** A direct write of any kind. */
  method WriteStep<V>(c: Context<V>, step: Step<V>)
    requires c.Valid()
    modifies c
    ensures c.Valid() && old(c.history) <= c.history && |c.history| <= |old(c.history)| + 1
  {
    hide Context.Valid;
    match step {
      case Ensuring(_, source, ns) =>
        var r := c.Ensure(source, ns);
      case Setting(_, source, ns, key, value) =>
        var r := c.Set(source, ns, key, value);
      case Deleting(_, source, ns, key) =>
        var r := c.Delete(source, ns, key);
      case _ =>
    }
  }

  /** The open transactions, against the histories the contexts had at some moment. */
  ghost predicate Stagings<V>(contexts: seq<Context<V>>, open: seq<Staging>, histories: seq<seq<seq<Write<V>>>>)
    requires |histories| == |contexts|
  {
    forall i :: 0 <= i < |open| ==>
      && open[i].parent < open[i].child < |contexts|
      && Began(contexts[open[i].parent].base, histories[open[i].parent], contexts[open[i].child].base, open[i].version)
  }

  /** Contexts moving on by recorded changes leave every open transaction staged from where it was. */
  lemma StagingsLater<V>(contexts: seq<Context<V>>, open: seq<Staging>, before: seq<seq<seq<Write<V>>>>, after: seq<seq<seq<Write<V>>>>)
    requires |before| == |after| == |contexts| && Stagings(contexts, open, before)
    requires forall j :: 0 <= j < |contexts| ==> before[j] <= after[j]
    ensures Stagings(contexts, open, after)
  {
    hide Began;
    forall i | 0 <= i < |open| ensures Began(contexts[open[i].parent].base, after[open[i].parent], contexts[open[i].child].base, open[i].version) {
      BeganLater(contexts[open[i].parent].base, before[open[i].parent], after[open[i].parent], contexts[open[i].child].base, open[i].version);
    }
  }

  ghost function Histories<V>(contexts: seq<Context<V>>): (histories: seq<seq<seq<Write<V>>>>)
    reads contexts
    ensures |histories| == |contexts| && forall j :: 0 <= j < |contexts| ==> histories[j] == contexts[j].history
  {
    if contexts == [] then [] else Histories(contexts[..|contexts| - 1]) + [contexts[|contexts| - 1].history]
  }

  lemma Closing<V>(contexts: seq<Context<V>>, open: seq<Staging>, at: nat)
    requires Sane(contexts, open) && at < |open|
    ensures Sane(contexts, open[..at] + open[at + 1..])
  {
    hide Context.Valid, Began;
  }

  method Start<V>(contexts: seq<Context<V>>, open: seq<Staging>, at: nat, expected: Option<nat>)
    returns (after: seq<Context<V>>, left: seq<Staging>)
    requires at < |contexts| && Sane(contexts, open)
    ensures |after| >= |contexts| && after[..|contexts|] == contexts && Sane(after, left)
    ensures forall j :: |contexts| <= j < |after| ==> fresh(after[j])
  {
    hide Context.Valid, Began;
    var staged, version := contexts[at].Begin(expected);
    if staged.None? {
      return contexts, open;
    }
    BeginMeans(contexts[at], version);
    after := contexts + [staged.value];
    left := open + [Staging(|contexts|, at, version)];
  }

  method Finish<V>(contexts: seq<Context<V>>, open: seq<Staging>, at: nat, source: string) returns (left: seq<Staging>)
    requires at < |contexts| && Sane(contexts, open)
    modifies set c | c in contexts
    ensures Sane(contexts, left)
    ensures forall j :: 0 <= j < |contexts| ==> Grown(old(contexts[j].history), contexts[j].history)
  {
    hide Context.Valid, Began;
    var found := Find(open, at);
    if found.None? {
      return open;
    }
    var staging := open[found.value];
    ghost var before := Histories(contexts);
    var r := contexts[staging.parent].Commit(source, contexts[at], staging.version);
    StagingsLater(contexts, open, before, Histories(contexts));
    Closing(contexts, open, found.value);
    left := open[..found.value] + open[found.value + 1..];
  }

  method Advance<V>(contexts: seq<Context<V>>, open: seq<Staging>, step: Step<V>) returns (after: seq<Context<V>>, left: seq<Staging>)
    requires |contexts| > 0 && Sane(contexts, open)
    modifies set c | c in contexts
    ensures |after| >= |contexts| && after[..|contexts|] == contexts && Sane(after, left)
    ensures forall j :: |contexts| <= j < |after| ==> fresh(after[j])
    ensures forall j :: 0 <= j < |contexts| ==> Grown(old(contexts[j].history), contexts[j].history)
  {
    after, left := contexts, open;
    if step.at >= |contexts| {
      return;
    }
    hide Sane;
    match step {
      case Starting(at, expected) =>
        after, left := Start(contexts, open, at, expected);
      case Finishing(at, source) =>
        left := Finish(contexts, open, at, source);
      case Abandoning(at) =>
        var found := Find(open, at);
        if found.Some? {
          Closing(contexts, open, found.value);
          left := open[..found.value] + open[found.value + 1..];
        }
      case _ =>
        left := WriteAt(contexts, open, step);
    }
  }

  method WriteAt<V>(contexts: seq<Context<V>>, open: seq<Staging>, step: Step<V>) returns (left: seq<Staging>)
    requires step.at < |contexts| && Sane(contexts, open)
    modifies set c | c in contexts
    ensures left == open && Sane(contexts, left)
    ensures forall j :: 0 <= j < |contexts| ==> Grown(old(contexts[j].history), contexts[j].history)
  {
    hide Context.Valid, Began;
    ghost var before := Histories(contexts);
    WriteStep(contexts[step.at], step);
    StagingsLater(contexts, open, before, Histories(contexts));
    left := open;
  }

  /** A history goes on by at most one change. */
  ghost predicate Grown<V>(before: seq<seq<Write<V>>>, after: seq<seq<Write<V>>>) {
    before <= after && |after| <= |before| + 1
  }

  lemma BeginMeans<V>(c: Context<V>, version: nat)
    requires c.Valid() && version == c.revision
    ensures Began(c.base, c.history, c.data, version)
  {
    assert c.history[..version] == c.history;
  }
}
