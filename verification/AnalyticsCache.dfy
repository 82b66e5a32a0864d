/** The HEAD-keyed cache in front of the status-timeline fold (`lib/analytics.js`). */
module AnalyticsCache {
  import opened Common
  import opened Analytics

  // ---------- the terminal vocabulary ----------

  /** The type-blind terminal statuses, and each type's own. */
  datatype Vocabulary = Vocabulary(blind: set<string>, own: map<string, set<string>>) {
    function Own(kind: string): set<string> {
      if kind in own then own[kind] else {}
    }
  }

  /** What the graph contributes: the types of its nodes and the vocabulary. */
  datatype Graph = Graph(types: map<string, string>, vocabulary: Vocabulary)

  function Lower(s: string): string {
    seq(|s|, i requires 0 <= i < |s| => if 'A' <= s[i] <= 'Z' then s[i] - 'A' + 'a' else s[i])
  }

  /** Completion of a status, by the node's own type as the graph has it now. */
  function TerminalPredicate(g: Graph): Terminal {
    (status: string, id: string) =>
      Lower(status) in g.vocabulary.blind
      || (id in g.types && g.types[id] != "" && Lower(status) in g.vocabulary.Own(g.types[id]))
  }

  ghost predicate SameVocabulary(a: Vocabulary, b: Vocabulary) {
    a.blind == b.blind && forall kind :: a.Own(kind) == b.Own(kind)
  }

  /** The fingerprint tells vocabularies apart that judge differently. */
  ghost predicate Faithful(fingerprint: Vocabulary -> string) {
    forall a, b :: fingerprint(a) == fingerprint(b) ==> SameVocabulary(a, b)
  }

  // ---------- the repository and the cache ----------

  /** A linear history: the log block of each commit, oldest first. A commit hash
      names the whole history behind it, so a head is modelled as that history. */
  type Block = b: seq<Line> | b != [] && b[0].Marker? witness [Marker(None)]
  type History = seq<Block>

  function Log(h: History): seq<Line> {
    if h == [] then [] else Log(h[..|h| - 1]) + h[|h| - 1]
  }

  datatype Cache = Cache(head: History, fingerprint: string, state: State)

  function SnapshotTypes(state: State, g: Graph): State {
    map id | id in state :: if id in g.types then state[id].(kind := Some(g.types[id])) else state[id]
  }

  /** A folded node whose snapshotted type is no longer its type. */
  predicate HasRetypedNode(state: State, g: Graph) {
    exists id :: id in state && id in g.types && state[id].kind.Some? && state[id].kind.value != g.types[id]
  }

  predicate IsAncestor(a: History, b: History) {
    a <= b
  }

  predicate Reusable(fingerprint: Vocabulary -> string, cache: Option<Cache>, g: Graph) {
    cache.Some? && cache.value.fingerprint == fingerprint(g.vocabulary) && !HasRetypedNode(cache.value.state, g)
  }

  /** The answer and the cache it leaves. `rangeRead` and `fullRead` say whether
      git could produce the log of a range and of the whole history. */
  function Derive(fingerprint: Vocabulary -> string, cache: Option<Cache>, head: History, g: Graph,
                  rangeRead: bool, fullRead: bool): (map<string, int>, Option<Cache>)
  {
    var fp, terminal := fingerprint(g.vocabulary), TerminalPredicate(g);
    if Reusable(fingerprint, cache, g) && cache.value.head == head then (Closed(cache.value.state), cache)
    else if Reusable(fingerprint, cache, g) && IsAncestor(cache.value.head, head) then
      if !rangeRead then (Closed(cache.value.state), cache)
      else
        var state := SnapshotTypes(Fold(Log(head[|cache.value.head|..]), terminal, cache.value.state), g);
        (Closed(state), Some(Cache(head, fp, state)))
    else if !fullRead then (map[], cache)
    else
      var state := SnapshotTypes(Fold(Log(head), terminal, map[]), g);
      (Closed(state), Some(Cache(head, fp, state)))
  }

  /** A cold fold of the full history under the current predicate. */
  function Cold(h: History, g: Graph): State {
    Fold(Log(h), TerminalPredicate(g), map[])
  }

  // ---------- runs ----------

  datatype World = World(head: History, graph: Graph, cache: Option<Cache>)

  datatype Action =
    | Commit(block: Block)
    | Rewrite(head: History)
    | Edit(graph: Graph)
    | Query(rangeRead: bool, fullRead: bool)

  function Next(fingerprint: Vocabulary -> string, w: World, a: Action): World {
    match a
    case Commit(b) => w.(head := w.head + [b])
    case Rewrite(h) => w.(head := h)
    case Edit(g) => w.(graph := g)
    case Query(rangeRead, fullRead) =>
      w.(cache := Derive(fingerprint, w.cache, w.head, w.graph, rangeRead, fullRead).1)
  }

  function Run(fingerprint: Vocabulary -> string, w: World, actions: seq<Action>): World {
    if actions == [] then w
    else Next(fingerprint, Run(fingerprint, w, actions[..|actions| - 1]), actions[|actions| - 1])
  }

  /** Every node the history folds is in the graph. */
  ghost predicate Present(h: History, g: Graph) {
    Cold(h, g).Keys <= g.types.Keys
  }

  /** Whenever a query is made along the run, the folded nodes are in the graph. */
  ghost predicate Grounded(fingerprint: Vocabulary -> string, w: World, actions: seq<Action>) {
    forall i | 0 <= i < |actions| && actions[i].Query? ::
      Present(Run(fingerprint, w, actions[..i]).head, Run(fingerprint, w, actions[..i]).graph)
  }

  // ---------- what a cache holds ----------

  function Unstamped(state: State): State {
    map id | id in state :: state[id].(kind := None)
  }

  /** The cache is the cold fold of its head under some graph with its fingerprint,
      and it remembers that graph's type for every node it folded. */
  ghost predicate Coherent(fingerprint: Vocabulary -> string, c: Cache) {
    exists g: Graph :: CoherentUnder(fingerprint, c, g)
  }

  ghost predicate CoherentUnder(fingerprint: Vocabulary -> string, c: Cache, g: Graph) {
    && fingerprint(g.vocabulary) == c.fingerprint
    && Unstamped(c.state) == Cold(c.head, g)
    && forall id | id in c.state :: id in g.types && c.state[id].kind == Some(g.types[id])
  }

  // ---------- folding under two predicates ----------

  /** Two predicates that agree on the nodes a list of changes names. */
  ghost predicate Agree(p: Terminal, q: Terminal, ids: set<string>) {
    forall id, s | id in ids :: p(s, id) == q(s, id)
  }

  lemma {:induction false} ApplyAllAgree(base: State, ds: seq<Delta>, p: Terminal, q: Terminal)
    requires Agree(p, q, ApplyAll(base, ds, p).Keys)
    ensures ApplyAll(base, ds, p) == ApplyAll(base, ds, q)
  {
    if ds != [] {
      var init, d := ds[..|ds| - 1], ds[|ds| - 1];
      assert d.node in ApplyAll(base, ds, p).Keys;
      assert ApplyAll(base, init, p).Keys <= ApplyAll(base, ds, p).Keys;
      ApplyAllAgree(base, init, p, q);
    }
  }

  lemma FoldAgree(lines: seq<Line>, base: State, p: Terminal, q: Terminal)
    requires Agree(p, q, Fold(lines, p, base).Keys)
    ensures Fold(lines, p, base) == Fold(lines, q, base)
  {
    hide Fold, ApplyAll;
    FoldIsItsDeltas(lines, p, base);
    FoldIsItsDeltas(lines, q, base);
    ApplyAllAgree(base, Deltas(lines), p, q);
  }

  /** The snapshotted types ride along: they never change what is folded. */
  lemma {:induction false} ApplyAllUnstamped(base: State, ds: seq<Delta>, p: Terminal)
    ensures Unstamped(ApplyAll(base, ds, p)) == ApplyAll(Unstamped(base), ds, p)
  {
    if ds != [] {
      ApplyAllUnstamped(base, ds[..|ds| - 1], p);
      var s, d := ApplyAll(base, ds[..|ds| - 1], p), ds[|ds| - 1];
      assert Unstamped(Apply(s, d, p)) == Apply(Unstamped(s), d, p);
    }
  }

  lemma FoldUnstamped(lines: seq<Line>, base: State, p: Terminal)
    ensures Unstamped(Fold(lines, p, base)) == Fold(lines, p, Unstamped(base))
  {
    hide Fold, ApplyAll;
    FoldIsItsDeltas(lines, p, base);
    FoldIsItsDeltas(lines, p, Unstamped(base));
    ApplyAllUnstamped(base, Deltas(lines), p);
  }

  lemma ClosedUnstamped(state: State)
    ensures Closed(Unstamped(state)) == Closed(state)
  {
  }

  lemma SnapshotUnstamped(state: State, g: Graph)
    ensures Unstamped(SnapshotTypes(state, g)) == Unstamped(state)
    ensures SnapshotTypes(state, g).Keys == state.Keys
    ensures state.Keys <= g.types.Keys ==>
              forall id | id in state :: SnapshotTypes(state, g)[id].kind == Some(g.types[id])
  {
  }

  lemma {:induction false} LogSplit(h: History, k: nat)
    requires k <= |h|
    ensures Log(h) == Log(h[..k]) + Log(h[k..])
    ensures Log(h[k..]) == [] || Log(h[k..])[0].Marker?
    decreases |h|
  {
    if k == |h| {
      assert h[..k] == h && h[k..] == [];
    } else {
      var init := h[..|h| - 1];
      LogSplit(init, k);
      assert init[..k] == h[..k] && init[k..] == h[k..][..|h[k..]| - 1];
      assert Log(init[..k]) + Log(init[k..]) + h[|h| - 1] == Log(h[..k]) + (Log(init[k..]) + h[|h| - 1]);
    }
  }

  lemma {:induction false} KeysGrow(base: State, ds: seq<Delta>, p: Terminal)
    ensures base.Keys <= ApplyAll(base, ds, p).Keys
  {
    if ds != [] {
      KeysGrow(base, ds[..|ds| - 1], p);
    }
  }

  // ---------- reuse is sound ----------

  /** A reusable cache judges every node it folded as the current graph does. */
  lemma ReusableAgrees(fingerprint: Vocabulary -> string, c: Cache, g: Graph, was: Graph)
    requires Faithful(fingerprint) && CoherentUnder(fingerprint, c, was)
    requires Reusable(fingerprint, Some(c), g) && c.state.Keys <= g.types.Keys
    ensures Agree(TerminalPredicate(was), TerminalPredicate(g), c.state.Keys)
  {
    assert SameVocabulary(was.vocabulary, g.vocabulary);
    forall id, s | id in c.state.Keys
      ensures TerminalPredicate(was)(s, id) == TerminalPredicate(g)(s, id)
    {
      assert was.types[id] == g.types[id];
    }
  }

  /** What a reusable cache holds is the cold fold of its head under the current graph. */
  lemma ReusableIsCold(fingerprint: Vocabulary -> string, c: Cache, g: Graph)
    requires Faithful(fingerprint) && Coherent(fingerprint, c)
    requires Reusable(fingerprint, Some(c), g) && c.state.Keys <= g.types.Keys
    ensures Unstamped(c.state) == Cold(c.head, g)
  {
    hide Fold, Reusable, Log;
    var was: Graph :| CoherentUnder(fingerprint, c, was);
    ReusableAgrees(fingerprint, c, g, was);
    assert Unstamped(c.state).Keys == c.state.Keys;
    FoldAgree(Log(c.head), map[], TerminalPredicate(was), TerminalPredicate(g));
  }

  lemma ColdKeysGrow(h: History, k: nat, g: Graph, g': Graph)
    requires k <= |h|
    ensures Cold(h[..k], g).Keys <= Cold(h, g').Keys
  {
    LogSplit(h, k);
    FoldComposes(Log(h[..k]), Log(h[k..]), TerminalPredicate(g'), map[]);
    var mid := Cold(h[..k], g');
    FoldIsItsDeltas(Log(h[k..]), TerminalPredicate(g'), mid);
    KeysGrow(mid, Deltas(Log(h[k..])), TerminalPredicate(g'));
    FoldIsItsDeltas(Log(h[..k]), TerminalPredicate(g), map[]);
    FoldIsItsDeltas(Log(h[..k]), TerminalPredicate(g'), map[]);
    SameKeys(Deltas(Log(h[..k])), TerminalPredicate(g), TerminalPredicate(g'));
  }

  lemma {:induction false} SameKeys(ds: seq<Delta>, p: Terminal, q: Terminal)
    ensures ApplyAll(map[], ds, p).Keys == ApplyAll(map[], ds, q).Keys
  {
    if ds != [] {
      SameKeys(ds[..|ds| - 1], p, q);
    }
  }

  lemma CachedKeysPresent(fingerprint: Vocabulary -> string, c: Cache, head: History, g: Graph)
    requires Coherent(fingerprint, c) && c.head <= head && Present(head, g)
    ensures c.state.Keys <= g.types.Keys
  {
    hide Fold, Log;
    var was: Graph :| CoherentUnder(fingerprint, c, was);
    assert head[..|c.head|] == c.head;
    ColdKeysGrow(head, |c.head|, was, g);
    assert Unstamped(c.state).Keys == c.state.Keys;
  }

  /** Folding the range since the cached head onto the cached state is the cold fold. */
  lemma RangeFoldIsCold(fingerprint: Vocabulary -> string, c: Cache, head: History, g: Graph)
    requires Faithful(fingerprint) && Coherent(fingerprint, c) && c.head <= head && Present(head, g)
    requires Reusable(fingerprint, Some(c), g)
    ensures Unstamped(Fold(Log(head[|c.head|..]), TerminalPredicate(g), c.state)) == Cold(head, g)
  {
    hide Fold, Reusable, Present;
    CachedKeysPresent(fingerprint, c, head, g);
    ReusableIsCold(fingerprint, c, g);
    FoldUnstamped(Log(head[|c.head|..]), c.state, TerminalPredicate(g));
    LogSplit(head, |c.head|);
    assert head[..|c.head|] == c.head;
    FoldComposes(Log(c.head), Log(head[|c.head|..]), TerminalPredicate(g), map[]);
  }

  lemma SnapshotIsCoherent(fingerprint: Vocabulary -> string, head: History, g: Graph, state: State)
    requires Present(head, g) && Unstamped(state) == Cold(head, g)
    ensures CoherentUnder(fingerprint, Cache(head, fingerprint(g.vocabulary), SnapshotTypes(state, g)), g)
    ensures Closed(SnapshotTypes(state, g)) == Closed(Cold(head, g))
  {
    hide Fold, Log;
    SnapshotUnstamped(state, g);
    ClosedUnstamped(SnapshotTypes(state, g));
    assert state.Keys == Unstamped(state).Keys;
  }

  lemma {:induction false} ColdIsUnstamped(h: History, g: Graph)
    ensures Unstamped(Cold(h, g)) == Cold(h, g)
  {
    hide Fold, Log;
    assert Unstamped(map[]) == map[];
    FoldUnstamped(Log(h), map[], TerminalPredicate(g));
  }

  /** One query: with its git reads answered it returns exactly the cold fold, and
      read or unread it never leaves an incoherent cache. */
  lemma QueryIsCold(fingerprint: Vocabulary -> string, w: World, rangeRead: bool, fullRead: bool)
    requires Faithful(fingerprint) && Present(w.head, w.graph)
    requires w.cache.Some? ==> Coherent(fingerprint, w.cache.value)
    ensures var r := Derive(fingerprint, w.cache, w.head, w.graph, rangeRead, fullRead);
      && (rangeRead && fullRead ==> r.0 == Closed(Cold(w.head, w.graph)))
      && (r.1.Some? ==> Coherent(fingerprint, r.1.value))
  {
    hide Fold, Log, Closed, CoherentUnder, Present, SnapshotTypes, HasRetypedNode, Cold;
    var g := w.graph;
    if w.cache.Some? && Reusable(fingerprint, w.cache, g) && w.cache.value.head <= w.head {
      var c := w.cache.value;
      if c.head == w.head {
        CachedKeysPresent(fingerprint, c, w.head, g);
        ReusableIsCold(fingerprint, c, g);
        ClosedUnstamped(c.state);
      } else if rangeRead {
        RangeFoldIsCold(fingerprint, c, w.head, g);
        SnapshotIsCoherent(fingerprint, w.head, g, Fold(Log(w.head[|c.head|..]), TerminalPredicate(g), c.state));
      }
    } else if fullRead {
      ColdIsUnstamped(w.head, g);
      ColdOpens(w.head, g);
      SnapshotIsCoherent(fingerprint, w.head, g, Cold(w.head, g));
    }
  }

  lemma ColdOpens(h: History, g: Graph)
    ensures Cold(h, g) == Fold(Log(h), TerminalPredicate(g), map[])
  {
  }

  lemma {:induction false} RunKeepsCoherence(fingerprint: Vocabulary -> string, w: World, actions: seq<Action>)
    requires Faithful(fingerprint) && w.cache.None? && Grounded(fingerprint, w, actions)
    ensures Run(fingerprint, w, actions).cache.Some? ==> Coherent(fingerprint, Run(fingerprint, w, actions).cache.value)
  {
    hide Coherent, Derive, Present;
    if actions != [] {
      var init := actions[..|actions| - 1];
      forall i | 0 <= i < |init| && init[i].Query?
        ensures Present(Run(fingerprint, w, init[..i]).head, Run(fingerprint, w, init[..i]).graph)
      {
        assert init[..i] == actions[..i] && actions[i] == init[i];
      }
      RunKeepsCoherence(fingerprint, w, init);
      var a := actions[|actions| - 1];
      if a.Query? {
        assert actions[..|actions| - 1] == init;
        QueryIsCold(fingerprint, Run(fingerprint, w, init), a.rangeRead, a.fullRead);
      }
    }
  }

  /** Cache coherence: after any run of commits, history rewrites, retypes,
      vocabulary changes and queries (some of which may have failed to read), every
      answer whose reads succeed equals a cold fold of the full history under the
      current terminal predicate. */
  lemma {:induction false} CacheIsCoherent(fingerprint: Vocabulary -> string, w: World, actions: seq<Action>)
    requires Faithful(fingerprint) && w.cache.None? && Grounded(fingerprint, w, actions)
    requires Present(Run(fingerprint, w, actions).head, Run(fingerprint, w, actions).graph)
    ensures var now := Run(fingerprint, w, actions);
      Derive(fingerprint, now.cache, now.head, now.graph, true, true).0 == Closed(Cold(now.head, now.graph))
  {
    hide Coherent, Derive, Present, Cold;
    RunKeepsCoherence(fingerprint, w, actions);
    QueryIsCold(fingerprint, Run(fingerprint, w, actions), true, true);
  }

  // ---------- a node folded before it is in the graph ----------

  /** One commit that closes node `n`, by a status only its own type calls terminal. */
  function Closing(t: int): Block {
    [Marker(Some(t)), File(Some("n")), Added("merged")]
  }

  const OWN_STATUS := Vocabulary({}, map["pr" := {"merged"}])

  /** The graph before and after the node is in it. */
  const WITHOUT_NODE := Graph(map[], OWN_STATUS)
  const WITH_NODE := Graph(map["n" := "pr"], OWN_STATUS)

  lemma ClosingFolds(t: int, terminal: Terminal)
    ensures Fold(Log([Closing(t)]), terminal, map[]) == Apply(map[], Delta("n", Some(t), Some("merged")), terminal)
  {
    var h := [Closing(t)];
    assert h[..0] == [] && Log(h[..0]) == [] && [] + Closing(t) == Closing(t);
    assert Log(h) == Closing(t);
    FoldIsItsDeltas(Closing(t), terminal, map[]);
    ClosingDeltas(t);
    assert [Delta("n", Some(t), Some("merged"))][..0] == [];
  }

  lemma ClosingDeltas(t: int)
    ensures Deltas(Closing(t)) == [Delta("n", Some(t), Some("merged"))]
  {
    var b := Closing(t);
    assert b[..2][..1] == [b[0]] && b[..2][..1][..0] == [] && b[..2] == [b[0], b[1]];
    assert CursorAfter([b[0]]) == Cursor(Some(t), None, None, false);
    assert CursorAfter([b[0], b[1]]) == Cursor(Some(t), Some("n"), None, false);
    assert Settled([b[0]]) == [] && Settled([b[0], b[1]]) == [] && Settled(b) == [];
  }

  /** A node folded before it is in the graph has no type to compare: once it is there, the cached answer leaves it out
      and a cold fold does not. */
  lemma UntypedNodeGoesStale(fingerprint: Vocabulary -> string, t: int)
    ensures var w := World([Closing(t)], WITHOUT_NODE, None);
            var now := Run(fingerprint, w, [Query(true, true), Edit(WITH_NODE)]);
            && now.head == w.head && now.graph == WITH_NODE
            && Derive(fingerprint, now.cache, now.head, now.graph, true, true).0 == map[]
            && Closed(Cold(now.head, now.graph)) == map["n" := t]
  {
    hide Fold, Log, Closing, Lower;
    var w := World([Closing(t)], WITHOUT_NODE, None);
    var actions := [Query(true, true), Edit(WITH_NODE)];
    assert actions[..1] == [Query(true, true)] && actions[..1][..0] == [];
    ClosingFolds(t, TerminalPredicate(WITHOUT_NODE));
    ClosingFolds(t, TerminalPredicate(WITH_NODE));
    MergedIsLower();
    var state := Fold(Log(w.head), TerminalPredicate(WITHOUT_NODE), map[]);
    assert state == map["n" := Entry(Some("merged"), false, None, None)];
    assert SnapshotTypes(state, WITHOUT_NODE) == state;
    assert Run(fingerprint, w, []) == w;
    assert Run(fingerprint, w, actions[..1]).cache == Some(Cache(w.head, fingerprint(OWN_STATUS), state));
    assert Cold(w.head, WITH_NODE) == map["n" := Entry(Some("merged"), true, Some(t), None)];
  }

  /** An answer from the cache at its own head is the cold fold if and only if no node's closing run began at another time
      under the graph the cache was folded with. */
  lemma ReuseIsColdExactly(fingerprint: Vocabulary -> string, c: Cache, was: Graph, g: Graph)
    requires Reusable(fingerprint, Some(c), g) && Unstamped(c.state) == Cold(c.head, was)
    ensures Derive(fingerprint, Some(c), c.head, g, true, true).0 == Closed(Cold(c.head, g)) <==>
            SameRuns(Log(c.head), TerminalPredicate(was), TerminalPredicate(g))
  {
    hide Fold, Log, Reusable, Began, Closed;
    ClosedUnstamped(c.state);
    ClosedAlike(Log(c.head), TerminalPredicate(was), TerminalPredicate(g));
  }

  lemma MergedIsLower()
    ensures Lower("merged") == "merged"
  {
  }

  // ---------- the cache file, written in place ----------

  /** The source's loop that stamps each folded node's type into the state. */
  method StampTypes(folded: State, g: Graph) returns (state: State)
    ensures state == SnapshotTypes(folded, g)
  {
    state := folded;
    var ids := folded.Keys;
    while ids != {}
      invariant ids <= folded.Keys == state.Keys
      invariant forall id | id in folded :: state[id] == if id in ids then folded[id] else SnapshotTypes(folded, g)[id]
      decreases |ids|
    {
      var id :| id in ids;
      if id in g.types {
        state := state[id := state[id].(kind := Some(g.types[id]))];
      }
      ids := ids - {id};
    }
  }

  /** The closed-at cache beside the repository. */
  class ClosedCache {
    var stored: Option<Cache>

    constructor ()
      ensures stored == None
    {
      stored := None;
    }

    /** Answer a query and leave the cache for the next one. */
    method DeriveStatusTransitions(fingerprint: Vocabulary -> string, head: History, g: Graph, rangeRead: bool, fullRead: bool)
      returns (answer: map<string, int>)
      modifies this
      ensures (answer, stored) == Derive(fingerprint, old(stored), head, g, rangeRead, fullRead)
    {
      var fp, terminal := fingerprint(g.vocabulary), TerminalPredicate(g);
      var reusable := Reusable(fingerprint, stored, g);
      if reusable && stored.value.head == head {
        return Closed(stored.value.state);
      }
      var state: State;
      if reusable && IsAncestor(stored.value.head, head) {
        if !rangeRead {
          return Closed(stored.value.state);
        }
        state := Fold(Log(head[|stored.value.head|..]), terminal, stored.value.state);
      } else {
        if !fullRead {
          return map[];
        }
        state := Fold(Log(head), terminal, map[]);
      }
      state := StampTypes(state, g);
      stored := Some(Cache(head, fp, state));
      return Closed(state);
    }
  }
}
