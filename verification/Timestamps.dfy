/** The git-derived timestamp fold (`lib/kernel/timestamps.js`). */
module Timestamps {
  import opened Common
  import opened Analytics

  /** A trimmed line of `git log --name-only --format=%ct`: a commit time in
      milliseconds, a node file, or anything else. */
  datatype Entry = Time(ms: int) | Touch(node: string) | Skip

  function Classify(raw: string, folder: string): Entry {
    var line := Trim(raw);
    if line != "" && AllDigits(line) then Time(NatValue(line) * 1000)
    else if NodeOfPath(line, folder).Some? then Touch(NodeOfPath(line, folder).value)
    else Skip
  }

  /** A node's oldest and newest commit. The source prints both as ISO strings; the
      model keeps the milliseconds those strings denote. */
  datatype Extent = Extent(created: int, updated: int)
  type Extents = map<string, Extent>

  function Widen(acc: Extents, node: string, t: int): Extents {
    if node !in acc then acc[node := Extent(t, t)]
    else
      acc[node := Extent(if t < acc[node].created then t else acc[node].created,
                         if t > acc[node].updated then t else acc[node].updated)]
  }

  function TimeAfter(log: seq<Entry>): Option<int> {
    if log == [] then None
    else if log[|log| - 1].Time? then Some(log[|log| - 1].ms)
    else TimeAfter(log[..|log| - 1])
  }

  function Fold(log: seq<Entry>): Extents {
    if log == [] then map[]
    else
      var init, last := log[..|log| - 1], log[|log| - 1];
      if last.Touch? && TimeAfter(init).Some? then Widen(Fold(init), last.node, TimeAfter(init).value) else Fold(init)
  }

  function ClassifyAll(lines: seq<string>, folder: string): seq<Entry> {
    seq(|lines|, i requires 0 <= i < |lines| => Classify(lines[i], folder))
  }

  lemma FoldStep(log: seq<Entry>, i: nat)
    requires i < |log|
    ensures TimeAfter(log[..i + 1]) == if log[i].Time? then Some(log[i].ms) else TimeAfter(log[..i])
    ensures Fold(log[..i + 1])
         == if log[i].Touch? && TimeAfter(log[..i]).Some? then Widen(Fold(log[..i]), log[i].node, TimeAfter(log[..i]).value)
            else Fold(log[..i])
  {
    hide Widen;
    assert log[..i + 1][..i] == log[..i];
  }

  lemma NothingFolded(log: seq<Entry>)
    ensures Fold(log[..0]) == map[] && TimeAfter(log[..0]) == None && log[..|log|] == log
  {
  }

  method FoldGitTimestamps(lines: seq<string>, folder: string) returns (acc: Extents)
    ensures acc == Fold(ClassifyAll(lines, folder))
  {
    hide Fold, TimeAfter, Classify;
    acc := map[];
    var t: Option<int> := None;
    ghost var log := ClassifyAll(lines, folder);
    NothingFolded(log);
    for i := 0 to |lines|
      invariant acc == Fold(log[..i])
      invariant t == TimeAfter(log[..i])
    {
      FoldStep(log, i);
      match Classify(lines[i], folder) {
        case Time(ms) => t := Some(ms);
        case Touch(node) =>
          if t.Some? {
            if node !in acc {
              acc := acc[node := Extent(t.value, t.value)];
            } else {
              var cur := acc[node];
              if t.value < cur.created {
                cur := cur.(created := t.value);
              }
              if t.value > cur.updated {
                cur := cur.(updated := t.value);
              }
              acc := acc[node := cur];
            }
          }
        case Skip =>
      }
    }
  }

  /** Earlier creation, later update; a node of one side only is taken whole. */
  function Joined(b: Extents, a: Extents, id: string): Extent
    requires id in b || id in a
  {
    if id !in b then a[id]
    else if id !in a then b[id]
    else Extent(if a[id].created < b[id].created then a[id].created else b[id].created,
                if a[id].updated > b[id].updated then a[id].updated else b[id].updated)
  }

  function Merge(base: Extents, add: Extents): Extents {
    map id | id in base.Keys + add.Keys :: Joined(base, add, id)
  }

  /** The maps while the loop runs: what is left to do still has its base entry. */
  ghost predicate Merging(base: Extents, add: Extents, ids: set<string>, merged: Extents) {
    && ids <= add.Keys
    && merged.Keys == base.Keys + (add.Keys - ids)
    && forall id | id in merged :: merged[id] == if id in ids then base[id] else Joined(base, add, id)
  }

  /** Storing one node's joined extent takes it off what is left. */
  lemma MergeStep(base: Extents, add: Extents, ids: set<string>, merged: Extents, id: string)
    requires Merging(base, add, ids, merged) && id in ids
    ensures id in merged <==> id in base
    ensures id in merged ==> merged[id] == base[id]
    ensures Merging(base, add, ids - {id}, merged[id := Joined(base, add, id)])
  {
    hide Joined;
    var after := merged[id := Joined(base, add, id)];
    assert after.Keys == base.Keys + (add.Keys - (ids - {id}));
  }

  lemma NothingLeftToMerge(base: Extents, add: Extents, merged: Extents)
    requires Merging(base, add, {}, merged)
    ensures merged == Merge(base, add)
  {
    hide Joined;
  }

  /** The merge loop of the source over the nodes of the added range. */
  method MergeTimestampMaps(base: Extents, add: Extents) returns (merged: Extents)
    ensures merged == Merge(base, add)
  {
    hide Merge, Merging;
    merged := base;
    var ids := add.Keys;
    StartMerging(base, add);
    while ids != {}
      invariant Merging(base, add, ids, merged) && ids <= add.Keys
      decreases |ids|
    {
      var id :| id in ids;
      MergeStep(base, add, ids, merged, id);
      var a := add[id];
      if id !in merged {
        merged := merged[id := a];
      } else {
        var b := merged[id];
        merged := merged[id := Extent(if a.created < b.created then a.created else b.created,
                                      if a.updated > b.updated then a.updated else b.updated)];
      }
      ids := ids - {id};
    }
    NothingLeftToMerge(base, add, merged);
  }

  lemma StartMerging(base: Extents, add: Extents)
    ensures Merging(base, add, add.Keys, base)
  {
  }

  /** Widening a merge on its right is merging the widened right. */
  lemma MergeWiden(base: Extents, acc: Extents, node: string, t: int)
    ensures Merge(base, Widen(acc, node, t)) == Widen(Merge(base, acc), node, t)
  {
    var l, r := Merge(base, Widen(acc, node, t)), Widen(Merge(base, acc), node, t);
    assert l.Keys == r.Keys;
    forall id | id in l
      ensures l[id] == r[id]
    {
    }
  }

  lemma {:induction false} TimeAfterSplit(a: seq<Entry>, b: seq<Entry>)
    requires b != [] && b[0].Time?
    ensures TimeAfter(a + b) == TimeAfter(b) && TimeAfter(b).Some?
    decreases |b|
  {
    assert (a + b)[..|a + b| - 1] == a + b[..|b| - 1];
    if |b| > 1 {
      TimeAfterSplit(a, b[..|b| - 1]);
    }
  }

  /** The fold is a homomorphism: a log split at a commit boundary folds to the
      merge of the two folds, in either order of time. */
  lemma {:induction false} FoldMerges(a: seq<Entry>, b: seq<Entry>)
    requires b == [] || b[0].Time?
    ensures Fold(a + b) == Merge(Fold(a), Fold(b))
    decreases |b|
  {
    if b == [] {
      assert a + b == a;
      assert Merge(Fold(a), map[]) == Fold(a);
    } else {
      var init, last := b[..|b| - 1], b[|b| - 1];
      assert (a + b)[..|a + b| - 1] == a + init;
      FoldMerges(a, init);
      if init != [] {
        TimeAfterSplit(a, init);
        if last.Touch? {
          MergeWiden(Fold(a), Fold(init), last.node, TimeAfter(init).value);
        }
      }
    }
  }

  /** The merge does not care which range came first. */
  lemma MergeCommutes(a: Extents, b: Extents)
    ensures Merge(a, b) == Merge(b, a)
  {
    forall id | id in Merge(a, b)
      ensures Merge(a, b)[id] == Merge(b, a)[id]
    {
    }
  }

  /** The times at which a log touched a node. */
  function Touches(log: seq<Entry>, node: string): seq<int> {
    if log == [] then []
    else
      var init, last := log[..|log| - 1], log[|log| - 1];
      Touches(init, node) + if last == Touch(node) && TimeAfter(init).Some? then [TimeAfter(init).value] else []
  }

  /** A node's extent is exactly the oldest and the newest commit that touched it. */
  lemma {:induction false} FoldIsMinMax(log: seq<Entry>, node: string)
    ensures var ts := Touches(log, node);
      && (node in Fold(log) <==> ts != [])
      && (ts != [] ==>
            && Fold(log)[node].created in ts && (forall t | t in ts :: Fold(log)[node].created <= t)
            && Fold(log)[node].updated in ts && (forall t | t in ts :: t <= Fold(log)[node].updated))
  {
    if log != [] {
      FoldIsMinMax(log[..|log| - 1], node);
    }
  }
}
