/** The program view: a bounded breadth-first walk over membership (`lib/kernel/program.js`). */
module ProgramWalk {
  import opened Common

  type Id = string

  datatype Bucket = Done | Active | Blocked | Open

  /** What the walk reads of the graph: declared members, blockers, each node's bucket. */
  datatype Program = Program(members: map<Id, seq<Id>>, blockers: map<Id, seq<Id>>, bucketOf: Id -> Bucket)
  {
    function Members(id: Id): seq<Id> {
      if id in members then members[id] else []
    }

    function Blockers(id: Id): seq<Id> {
      if id in blockers then blockers[id] else []
    }

    /** Declared members when there are any, blockers otherwise. */
    function Children(id: Id): seq<Id> {
      if Members(id) != [] then Members(id) else Blockers(id)
    }

    /** Blockers of a declared node that are not its members. */
    function Outside(id: Id): set<Id> {
      if Members(id) != [] then (set b | b in Blockers(id) && b !in Members(id)) else {}
    }
  }

  /** A row of the rendered tree. */
  datatype Row = Row(id: Id, depth: nat, parent: Id, bucket: Bucket, repeated: bool)

  datatype Pending = Pending(id: Id, depth: nat, parent: Id)

  datatype Progress = Progress(total: nat, done: nat, active: nat, blocked: nat, open: nat) {
    function Count(b: Bucket): Progress {
      match b
      case Done => this.(total := total + 1, done := done + 1)
      case Active => this.(total := total + 1, active := active + 1)
      case Blocked => this.(total := total + 1, blocked := blocked + 1)
      case Open => this.(total := total + 1, open := open + 1)
    }
  }

  datatype View = View(nodeIds: seq<Id>, depthOf: map<Id, nat>, tree: seq<Row>, progress: Progress,
                       truncated: bool, outside: set<Id>)

  // ---------- reachability, written without the walk ----------

  /** `v` can be reached from `root` in exactly `n` steps. */
  ghost predicate Reaches(p: Program, root: Id, n: nat, v: Id) {
    if n == 0 then v == root
    else exists u: Id :: Reaches(p, root, n - 1, u) && v in p.Children(u)
  }

  ghost predicate Reachable(p: Program, root: Id, v: Id) {
    exists n: nat :: Reaches(p, root, n, v)
  }

  /** `n` is the length of a shortest way to `v`. */
  ghost predicate Distance(p: Program, root: Id, n: nat, v: Id) {
    Reaches(p, root, n, v) && forall m: nat | m < n :: !Reaches(p, root, m, v)
  }

  // ---------- what the loop keeps ----------

  function DepthIn(depthOf: map<Id, nat>, root: Id, id: Id): nat
    requires id == root || id in depthOf
  {
    if id == root then 0 else depthOf[id]
  }

  /** A child is seen no deeper than one below its parent, or is waiting at that depth. */
  ghost predicate ChildAccounted(p: Program, root: Id, depthOf: map<Id, nat>, pending: seq<Pending>, u: Id, c: Id)
    requires u == root || u in depthOf
  {
    c == root
    || (c in depthOf && depthOf[c] <= DepthIn(depthOf, root, u) + 1)
    || exists i :: 0 <= i < |pending| && pending[i].id == c && pending[i].depth == DepthIn(depthOf, root, u) + 1
  }

  ghost predicate Accounted(p: Program, root: Id, depthOf: map<Id, nat>, pending: seq<Pending>, u: Id)
    requires u == root || u in depthOf
  {
    forall c | c in p.Children(u) :: ChildAccounted(p, root, depthOf, pending, u, c)
  }

  /** The queue is ordered by depth and spans at most one level past `depth`. */
  ghost predicate QueueOrdered(pending: seq<Pending>, depth: nat) {
    && (forall i, j | 0 <= i <= j < |pending| :: pending[i].depth <= pending[j].depth)
    && (forall i | 0 <= i < |pending| :: depth <= pending[i].depth <= depth + 1)
  }

  /** Every waiting row and every seen node sits at the end of a way of its depth. */
  ghost predicate Witnessed(p: Program, root: Id, depthOf: map<Id, nat>, pending: seq<Pending>) {
    && (forall v | v in depthOf :: Reaches(p, root, depthOf[v], v))
    && (forall i | 0 <= i < |pending| :: RowWitnessed(p, root, pending[i]))
  }

  ghost predicate RowWitnessed(p: Program, root: Id, row: Pending) {
    && row.depth > 0
    && row.id in p.Children(row.parent)
    && Reaches(p, root, row.depth - 1, row.parent)
    && Reaches(p, root, row.depth, row.id)
  }

  /** Every node seen so far above the depth cap, and the root, has all its children accounted for. */
  ghost predicate Settled(p: Program, root: Id, maxDepth: nat, depthOf: map<Id, nat>, pending: seq<Pending>) {
    Accounted(p, root, depthOf, pending, root)
    && forall u | u in depthOf && depthOf[u] < maxDepth :: Accounted(p, root, depthOf, pending, u)
  }

  /** The deepest a row can be: the root's children are queued whatever the cap. */
  function Deepest(maxDepth: nat): nat {
    if maxDepth < 1 then 1 else maxDepth
  }

  /** The nodes at most this deep. */
  ghost predicate WithinDepth(p: Program, root: Id, depth: nat, id: Id) {
    exists n: nat :: n <= depth && Reaches(p, root, n, id)
  }

  ghost predicate NotBelow(maxDepth: nat, depthOf: map<Id, nat>, pending: seq<Pending>) {
    && (forall id | id in depthOf :: depthOf[id] <= Deepest(maxDepth))
    && forall i | 0 <= i < |pending| :: pending[i].depth <= Deepest(maxDepth)
  }

  /** The queue behind a node that was just seen. */
  function QueueAfter(p: Program, maxDepth: nat, pending: seq<Pending>, row: Pending): seq<Pending> {
    pending + if row.depth >= maxDepth then [] else ChildRows(p, row.id, row.depth + 1)
  }

  ghost predicate OutsideOfSome(p: Program, root: Id, order: seq<Id>, b: Id) {
    exists u :: (u == root || u in order) && b in p.Outside(u)
  }

  ghost predicate CandidatesOf(p: Program, root: Id, order: seq<Id>, candidates: set<Id>) {
    forall b :: b in candidates <==> OutsideOfSome(p, root, order, b)
  }

  /** The walk is cut short only by a cap that was really hit. */
  ghost predicate CutFairly(p: Program, maxDepth: nat, maxNodes: nat, order: seq<Id>, depthOf: map<Id, nat>,
                            truncated: bool) {
    if truncated then
      |order| == maxNodes || exists id :: id in depthOf && depthOf[id] >= maxDepth && p.Children(id) != []
    else
      forall id | id in depthOf && p.Children(id) != [] :: depthOf[id] < maxDepth
  }

  ghost predicate SeenMatchesOrder(root: Id, order: seq<Id>, depthOf: map<Id, nat>) {
    && (forall i, j | 0 <= i < j < |order| :: order[i] != order[j])
    && (forall v :: v in order <==> v in depthOf)
    && root !in depthOf
  }

  predicate Balanced(g: Progress, n: nat) {
    g.total == n && g.done + g.active + g.blocked + g.open == n
  }

  /** The rows of the children of a node, one level below it. */
  function ChildRows(p: Program, id: Id, depth: nat): (rows: seq<Pending>)
    ensures |rows| == |p.Children(id)|
    ensures forall i | 0 <= i < |rows| :: rows[i] == Pending(p.Children(id)[i], depth, id)
  {
    seq(|p.Children(id)|, i requires 0 <= i < |p.Children(id)| => Pending(p.Children(id)[i], depth, id))
  }

  /** The non-repeated rows of the tree, in order: the first sightings. */
  function FirstSightings(tree: seq<Row>): seq<Id> {
    if tree == [] then []
    else FirstSightings(tree[..|tree| - 1]) + if tree[|tree| - 1].repeated then [] else [tree[|tree| - 1].id]
  }

  /** A row sits under a real parent, at a depth some way of that length witnesses,
      and carries its node's bucket. */
  ghost predicate RowSound(p: Program, root: Id, r: Row) {
    r.depth > 0 && r.id in p.Children(r.parent) && Reaches(p, root, r.depth - 1, r.parent)
    && Reaches(p, root, r.depth, r.id) && r.bucket == p.bucketOf(r.id)
  }

  // ---------- lemmas about one turn of the loop ----------

  /** Taking the first waiting row off keeps every account, once its node is seen no deeper. */
  lemma PopKeepsAccounts(p: Program, root: Id, before: map<Id, nat>, pending: seq<Pending>,
                         after: map<Id, nat>, pending': seq<Pending>, u: Id)
    requires pending != [] && (u == root || u in before)
    requires forall v | v in before :: v in after && after[v] == before[v]
    requires |pending'| >= |pending| - 1 && pending'[..|pending| - 1] == pending[1..]
    requires pending[0].id == root || (pending[0].id in after && after[pending[0].id] <= pending[0].depth)
    requires Accounted(p, root, before, pending, u)
    ensures u == root || u in after
    ensures Accounted(p, root, after, pending', u)
  {
    forall c | c in p.Children(u)
      ensures ChildAccounted(p, root, after, pending', u, c)
    {
      assert ChildAccounted(p, root, before, pending, u, c);
      if c != root && !(c in before && before[c] <= DepthIn(before, root, u) + 1) {
        var i :| 0 <= i < |pending| && pending[i].id == c && pending[i].depth == DepthIn(before, root, u) + 1;
        if i > 0 {
          assert pending'[i - 1] == pending[1..][i - 1];
        }
      }
    }
  }

  /** A node whose children were just queued is accounted for. */
  lemma QueuedChildrenAreAccounted(p: Program, root: Id, depthOf: map<Id, nat>, front: seq<Pending>, u: Id)
    requires u == root || u in depthOf
    ensures Accounted(p, root, depthOf, front + ChildRows(p, u, DepthIn(depthOf, root, u) + 1), u)
  {
    var rows := ChildRows(p, u, DepthIn(depthOf, root, u) + 1);
    var pending := front + rows;
    forall c | c in p.Children(u)
      ensures ChildAccounted(p, root, depthOf, pending, u, c)
    {
      var i :| 0 <= i < |p.Children(u)| && p.Children(u)[i] == c;
      assert pending[|front| + i] == rows[i];
    }
  }

  /** With an empty queue and every account settled, the depths bound every way. */
  lemma {:induction false} SettledBoundsWays(p: Program, root: Id, depthOf: map<Id, nat>, n: nat, v: Id)
    requires Accounted(p, root, depthOf, [], root)
    requires forall u | u in depthOf :: Accounted(p, root, depthOf, [], u)
    requires Reaches(p, root, n, v)
    ensures v == root || (v in depthOf && depthOf[v] <= n)
  {
    if n > 0 {
      var u: Id :| Reaches(p, root, n - 1, u) && v in p.Children(u);
      SettledBoundsWays(p, root, depthOf, n - 1, u);
      assert ChildAccounted(p, root, depthOf, [], u, v);
    }
  }

  lemma ExtendsWay(p: Program, root: Id, n: nat, u: Id, v: Id)
    requires Reaches(p, root, n, u) && v in p.Children(u)
    ensures Reaches(p, root, n + 1, v)
  {
  }

  lemma QueueRowsWitnessed(p: Program, root: Id, depthOf: map<Id, nat>, pending: seq<Pending>, u: Id, depth: nat)
    requires Witnessed(p, root, depthOf, pending) && Reaches(p, root, depth, u)
    ensures Witnessed(p, root, depthOf, pending + ChildRows(p, u, depth + 1))
  {
    hide Reaches;
    var rows := ChildRows(p, u, depth + 1);
    var all := pending + rows;
    forall i | 0 <= i < |all|
      ensures RowWitnessed(p, root, all[i])
    {
      if i < |pending| {
        assert all[i] == pending[i];
      } else {
        assert all[i] == rows[i - |pending|];
        ExtendsWay(p, root, depth, u, all[i].id);
      }
    }
  }

  lemma PopWitnessed(p: Program, root: Id, depthOf: map<Id, nat>, pending: seq<Pending>)
    requires pending != [] && Witnessed(p, root, depthOf, pending)
    ensures Witnessed(p, root, depthOf, pending[1..])
    ensures RowWitnessed(p, root, pending[0])
  {
    hide Reaches, RowWitnessed;
    forall i | 0 <= i < |pending[1..]|
      ensures RowWitnessed(p, root, pending[1..][i])
    {
      assert pending[1..][i] == pending[i + 1];
    }
  }

  lemma PopOrdered(pending: seq<Pending>, level: nat)
    requires pending != [] && QueueOrdered(pending, level)
    ensures level <= pending[0].depth && QueueOrdered(pending[1..], pending[0].depth)
  {
    forall i | 0 <= i < |pending[1..]|
      ensures pending[0].depth <= pending[1..][i].depth <= pending[0].depth + 1
    {
      assert pending[1..][i] == pending[i + 1];
    }
  }

  lemma PushOrdered(p: Program, pending: seq<Pending>, u: Id, depth: nat)
    requires QueueOrdered(pending, depth)
    ensures QueueOrdered(pending + ChildRows(p, u, depth + 1), depth)
  {
    var rows := ChildRows(p, u, depth + 1);
    forall i | 0 <= i < |rows|
      ensures rows[i].depth == depth + 1
    {
    }
  }

  /** Popping a row whose node is the root, or was already seen no deeper, unsettles nobody. */
  lemma PopSettled(p: Program, root: Id, maxDepth: nat, depthOf: map<Id, nat>, pending: seq<Pending>)
    requires pending != [] && Settled(p, root, maxDepth, depthOf, pending)
    requires pending[0].id == root || (pending[0].id in depthOf && depthOf[pending[0].id] <= pending[0].depth)
    ensures Settled(p, root, maxDepth, depthOf, pending[1..])
  {
    hide Accounted;
    PopKeepsAccounts(p, root, depthOf, pending, depthOf, pending[1..], root);
    forall u | u in depthOf && depthOf[u] < maxDepth
      ensures Accounted(p, root, depthOf, pending[1..], u)
    {
      PopKeepsAccounts(p, root, depthOf, pending, depthOf, pending[1..], u);
    }
  }

  /** Seeing the popped node and queueing its children, unless the depth cap keeps them out, settles it too. */
  lemma SeeSettled(p: Program, root: Id, maxDepth: nat, depthOf: map<Id, nat>, pending: seq<Pending>)
    requires pending != [] && Settled(p, root, maxDepth, depthOf, pending)
    requires pending[0].id != root && pending[0].id !in depthOf
    ensures Settled(p, root, maxDepth, depthOf[pending[0].id := pending[0].depth], QueueAfter(p, maxDepth, pending[1..], pending[0]))
  {
    hide Accounted, ChildRows;
    var row := pending[0];
    var after := depthOf[row.id := row.depth];
    var queue := QueueAfter(p, maxDepth, pending[1..], row);
    assert queue[..|pending| - 1] == pending[1..];
    PopKeepsAccounts(p, root, depthOf, pending, after, queue, root);
    forall u | u in after && after[u] < maxDepth
      ensures Accounted(p, root, after, queue, u)
    {
      if u == row.id {
        QueuedChildrenAreAccounted(p, root, after, pending[1..], u);
      } else {
        PopKeepsAccounts(p, root, depthOf, pending, after, queue, u);
      }
    }
  }

  /** A way shorter than every waiting row leads to a node already seen, no deeper than the way is long. */
  lemma {:induction false} ShortWaysAreSeen(p: Program, root: Id, maxDepth: nat, depthOf: map<Id, nat>, pending: seq<Pending>,
                                            n: nat, v: Id)
    requires Settled(p, root, maxDepth, depthOf, pending) && n <= Deepest(maxDepth)
    requires forall i | 0 <= i < |pending| :: n < pending[i].depth
    requires Reaches(p, root, n, v)
    ensures v == root || (v in depthOf && depthOf[v] <= n)
  {
    if n > 0 {
      var u: Id :| Reaches(p, root, n - 1, u) && v in p.Children(u);
      ShortWaysAreSeen(p, root, maxDepth, depthOf, pending, n - 1, u);
      if n == 1 {
        assert u == root;
      }
      assert Accounted(p, root, depthOf, pending, u);
      assert ChildAccounted(p, root, depthOf, pending, u, v);
    }
  }

  /** The first waiting row, of a node not seen yet, stands at that node's distance. */
  lemma RowIsShortest(p: Program, root: Id, maxDepth: nat, depthOf: map<Id, nat>, pending: seq<Pending>, level: nat)
    requires pending != [] && Settled(p, root, maxDepth, depthOf, pending) && QueueOrdered(pending, level)
    requires NotBelow(maxDepth, depthOf, pending) && RowWitnessed(p, root, pending[0])
    requires pending[0].id != root && pending[0].id !in depthOf
    ensures Distance(p, root, pending[0].depth, pending[0].id)
  {
    hide Settled, Reaches;
    var row := pending[0];
    forall m: nat | m < row.depth
      ensures !Reaches(p, root, m, row.id)
    {
      if Reaches(p, root, m, row.id) {
        ShortWaysAreSeen(p, root, maxDepth, depthOf, pending, m, row.id);
      }
    }
  }

  lemma QueueNotBelow(p: Program, maxDepth: nat, depthOf: map<Id, nat>, pending: seq<Pending>, row: Pending)
    requires NotBelow(maxDepth, depthOf, [row] + pending)
    ensures NotBelow(maxDepth, depthOf[row.id := row.depth], QueueAfter(p, maxDepth, pending, row))
    ensures NotBelow(maxDepth, depthOf, pending)
  {
    assert ([row] + pending)[0] == row;
    assert forall i | 0 <= i < |pending| :: pending[i] == ([row] + pending)[i + 1];
  }

  lemma SeeWitnessed(p: Program, root: Id, depthOf: map<Id, nat>, pending: seq<Pending>, row: Pending)
    requires Witnessed(p, root, depthOf, pending) && RowWitnessed(p, root, row)
    ensures Witnessed(p, root, depthOf[row.id := row.depth], pending)
    ensures Reaches(p, root, row.depth, row.id)
  {
    hide Reaches;
  }

  lemma WitnessedRowIsSound(p: Program, root: Id, row: Pending, r: Row)
    requires RowWitnessed(p, root, row)
    requires r.id == row.id && r.depth == row.depth && r.parent == row.parent && r.bucket == p.bucketOf(row.id)
    ensures RowSound(p, root, r)
  {
    hide Reaches;
  }

  lemma StartingState(p: Program, root: Id, maxDepth: nat)
    ensures Settled(p, root, maxDepth, map[], ChildRows(p, root, 1))
    ensures NotBelow(maxDepth, map[], ChildRows(p, root, 1))
    ensures Witnessed(p, root, map[], ChildRows(p, root, 1))
    ensures QueueOrdered(ChildRows(p, root, 1), 0)
    ensures CandidatesOf(p, root, [], p.Outside(root))
    ensures SeenMatchesOrder(root, [], map[])
    ensures FirstSightings([]) == []
  {
    hide Accounted, RowWitnessed, QueueOrdered;
    QueuedChildrenAreAccounted(p, root, map[], [], root);
    assert [] + ChildRows(p, root, 1) == ChildRows(p, root, 1);
    assert Reaches(p, root, 0, root);
    QueueRowsWitnessed(p, root, map[], [], root, 0);
    NothingQueued();
    PushOrdered(p, [], root, 0);
  }

  lemma NothingQueued()
    ensures QueueOrdered([], 0)
  {
  }

  lemma OutsideIsExact(p: Program, root: Id, order: seq<Id>, depthOf: map<Id, nat>, candidates: set<Id>)
    requires CandidatesOf(p, root, order, candidates) && SeenMatchesOrder(root, order, depthOf)
    ensures forall b :: b in (set id | id in candidates && id != root && id !in depthOf)
                        <==> b != root && b !in order && OutsideOfSome(p, root, order, b)
  {
    hide OutsideOfSome;
  }

  lemma SeeCandidates(p: Program, root: Id, order: seq<Id>, candidates: set<Id>, id: Id)
    requires CandidatesOf(p, root, order, candidates)
    ensures CandidatesOf(p, root, order + [id], candidates + p.Outside(id))
  {
    hide Program.Outside;
    forall b
      ensures b in candidates + p.Outside(id) <==> OutsideOfSome(p, root, order + [id], b)
    {
      assert b in candidates <==> OutsideOfSome(p, root, order, b);
      if OutsideOfSome(p, root, order, b) {
        var u :| (u == root || u in order) && b in p.Outside(u);
        assert u == root || u in order + [id];
      } else if b in p.Outside(id) {
        assert id in order + [id];
      }
    }
  }

  lemma SeeOrder(root: Id, order: seq<Id>, depthOf: map<Id, nat>, id: Id, depth: nat)
    requires SeenMatchesOrder(root, order, depthOf) && id != root && id !in depthOf
    ensures SeenMatchesOrder(root, order + [id], depthOf[id := depth])
  {
    forall v
      ensures v in order + [id] <==> v in depthOf[id := depth]
    {
    }
  }

  /** A walk with nothing left to do, that had room for every node it came to, has seen exactly the nodes within the depth
      cap; all that are reachable, if no node at the cap has children. */
  lemma SettledIsExact(p: Program, root: Id, maxDepth: nat, order: seq<Id>, depthOf: map<Id, nat>)
    requires SeenMatchesOrder(root, order, depthOf) && Settled(p, root, maxDepth, depthOf, [])
    requires Witnessed(p, root, depthOf, []) && NotBelow(maxDepth, depthOf, [])
    ensures forall id: Id :: id in order <==> id != root && WithinDepth(p, root, Deepest(maxDepth), id)
    ensures (forall id | id in depthOf && p.Children(id) != [] :: depthOf[id] < maxDepth) ==>
              forall id: Id :: id in order <==> id != root && Reachable(p, root, id)
  {
    hide Reaches, Settled;
    forall id: Id
      ensures id in order <==> id != root && WithinDepth(p, root, Deepest(maxDepth), id)
    {
      if id in order {
        assert Reaches(p, root, depthOf[id], id);
      } else if WithinDepth(p, root, Deepest(maxDepth), id) {
        var n: nat :| n <= Deepest(maxDepth) && Reaches(p, root, n, id);
        ShortWaysAreSeen(p, root, maxDepth, depthOf, [], n, id);
      }
    }
    if forall id | id in depthOf && p.Children(id) != [] :: depthOf[id] < maxDepth {
      AllAccounted(p, root, maxDepth, depthOf);
      forall id: Id
        ensures id in order <==> id != root && Reachable(p, root, id)
      {
        if id in order {
          assert Reaches(p, root, depthOf[id], id);
        } else if Reachable(p, root, id) {
          var n: nat :| Reaches(p, root, n, id);
          SettledBoundsWays(p, root, depthOf, n, id);
        }
      }
    }
  }

  lemma AllAccounted(p: Program, root: Id, maxDepth: nat, depthOf: map<Id, nat>)
    requires Settled(p, root, maxDepth, depthOf, [])
    requires forall id | id in depthOf && p.Children(id) != [] :: depthOf[id] < maxDepth
    ensures Accounted(p, root, depthOf, [], root) && forall u | u in depthOf :: Accounted(p, root, depthOf, [], u)
  {
  }

  lemma FirstSightingsAppend(tree: seq<Row>, r: Row)
    ensures FirstSightings(tree + [r]) == FirstSightings(tree) + if r.repeated then [] else [r.id]
  {
    assert (tree + [r])[..|tree|] == tree;
  }

  /** What the walk promises about its answer. */
  ghost predicate ViewOf(p: Program, root: Id, maxDepth: nat, maxNodes: nat, v: View) {
    && |v.nodeIds| <= maxNodes
    && SeenMatchesOrder(root, v.nodeIds, v.depthOf)
    && Balanced(v.progress, |v.nodeIds|)
    && FirstSightings(v.tree) == v.nodeIds
    && (forall r | r in v.tree :: RowSound(p, root, r))
    && (forall id | id in v.depthOf :: Distance(p, root, v.depthOf[id], id))
    && (|v.nodeIds| < maxNodes || !v.truncated ==>
          forall id: Id :: id in v.nodeIds <==> id != root && WithinDepth(p, root, Deepest(maxDepth), id))
    && (!v.truncated ==> forall id: Id :: id in v.nodeIds <==> id != root && Reachable(p, root, id))
    && (forall b :: b in v.outside <==>
          !v.truncated && b != root && b !in v.nodeIds && OutsideOfSome(p, root, v.nodeIds, b))
    && CutFairly(p, maxDepth, maxNodes, v.nodeIds, v.depthOf, v.truncated)
  }

  /** The queue loop. It ends on every graph, cycles included: each turn either
      sees a new node, of which there are at most `maxNodes`, or shortens the queue. */
  method WalkProgram(p: Program, root: Id, maxDepth: nat, maxNodes: nat) returns (v: View)
    ensures ViewOf(p, root, maxDepth, maxNodes, v)
  {
    hide Reaches, Accounted, RowWitnessed, QueueOrdered, CandidatesOf, SeenMatchesOrder, FirstSightings, Program.Outside,
         OutsideOfSome, Witnessed, Settled, Distance, Reachable,
         NotBelow, WithinDepth, Deepest;
    var depthOf: map<Id, nat> := map[];
    var order: seq<Id> := [];
    var tree: seq<Row> := [];
    var progress := Progress(0, 0, 0, 0, 0);
    var truncated := false;
    var candidates := p.Outside(root);
    var pending := ChildRows(p, root, 1);
    ghost var level: nat := 0;
    ghost var missed := false;
    StartingState(p, root, maxDepth);
    while pending != []
      invariant |order| <= maxNodes
      invariant SeenMatchesOrder(root, order, depthOf)
      invariant Balanced(progress, |order|)
      invariant FirstSightings(tree) == order
      invariant forall r | r in tree :: RowSound(p, root, r)
      invariant Witnessed(p, root, depthOf, pending)
      invariant QueueOrdered(pending, level) && forall id | id in depthOf :: depthOf[id] <= level
      invariant missed ==> truncated && |order| >= maxNodes
      invariant !missed ==> Settled(p, root, maxDepth, depthOf, pending)
      invariant forall id | id in depthOf :: Distance(p, root, depthOf[id], id)
      invariant NotBelow(maxDepth, depthOf, pending)
      invariant CandidatesOf(p, root, order, candidates)
      invariant CutFairly(p, maxDepth, maxNodes, order, depthOf, truncated)
      decreases maxNodes - |order|, |pending|
    {
      var row := pending[0];
      PopWitnessed(p, root, depthOf, pending);
      PopOrdered(pending, level);
      ghost var queue := pending;
      pending := pending[1..];
      assert [row] + pending == queue;
      QueueNotBelow(p, maxDepth, depthOf, pending, row);
      ghost var before := level;
      level := row.depth;
      if row.id == root {
        // a cycle back to the root: never re-entered
        if !missed { PopSettled(p, root, maxDepth, depthOf, queue); }
      } else if row.id in depthOf {
        if !missed { PopSettled(p, root, maxDepth, depthOf, queue); }
        var r := Row(row.id, row.depth, row.parent, p.bucketOf(row.id), true);
        FirstSightingsAppend(tree, r);
        WitnessedRowIsSound(p, root, row, r);
        tree := tree + [r];
      } else if |order| >= maxNodes {
        truncated := true;
        missed := true;
      } else {
        SeeSettled(p, root, maxDepth, depthOf, queue);
        RowIsShortest(p, root, maxDepth, depthOf, queue, before);
        SeeOrder(root, order, depthOf, row.id, row.depth);
        SeeWitnessed(p, root, depthOf, pending, row);
        SeeCandidates(p, root, order, candidates, row.id);
        depthOf := depthOf[row.id := row.depth];
        order := order + [row.id];
        var r := Row(row.id, row.depth, row.parent, p.bucketOf(row.id), false);
        FirstSightingsAppend(tree, r);
        WitnessedRowIsSound(p, root, row, r);
        tree := tree + [r];
        progress := progress.Count(p.bucketOf(row.id));
        candidates := candidates + p.Outside(row.id);
        if row.depth >= maxDepth {
          if p.Children(row.id) != [] {
            truncated := true;
          }
          assert QueueAfter(p, maxDepth, pending, row) == pending;
        } else {
          QueueRowsWitnessed(p, root, depthOf, pending, row.id, row.depth);
          PushOrdered(p, pending, row.id, row.depth);
          pending := pending + ChildRows(p, row.id, row.depth + 1);
        }
      }
    }
    var outside := if truncated then {} else set id | id in candidates && id != root && id !in depthOf;
    v := View(order, depthOf, tree, progress, truncated, outside);
    if !missed { SettledIsExact(p, root, maxDepth, order, depthOf); }
    OutsideIsExact(p, root, order, depthOf, candidates);
  }
}
