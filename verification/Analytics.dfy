/** The status-timeline fold over `git log -p` (`lib/kernel/analytics.js`). */
module Analytics {
  import opened Common

  // ---------- one line of the log ----------

  /** `\s` */
  predicate White(c: char) {
    '\t' <= c <= '\r' || c == ' ' || c == '\U{00A0}' || c == '\U{1680}' || '\U{2000}' <= c <= '\U{200A}'
    || c == '\U{2028}' || c == '\U{2029}' || c == '\U{202F}' || c == '\U{205F}' || c == '\U{3000}' || c == '\U{FEFF}'
  }

  function TrimLeft(s: string): string {
    if s != [] && White(s[0]) then TrimLeft(s[1..]) else s
  }

  function TrimRight(s: string): string {
    if s != [] && White(s[|s| - 1]) then TrimRight(s[..|s| - 1]) else s
  }

  function Trim(s: string): string {
    TrimRight(TrimLeft(s))
  }

  predicate OneLine(s: string) {
    '\r' !in s && '\n' !in s && '\U{2028}' !in s && '\U{2029}' !in s
  }

  predicate IdStart(c: char) { 'a' <= c <= 'z' || '0' <= c <= '9' }

  /** `[a-z0-9][a-z0-9-]*` */
  predicate NodeId(s: string) {
    s != "" && IdStart(s[0]) && forall c | c in s :: IdStart(c) || c == '-'
  }

  /** The node id a path `<folder>/<id>.md` names. */
  function NodeOfPath(path: string, folder: string): Option<string> {
    var head, tail := folder + "/", ".md";
    if |path| >= |head| + |tail| && head <= path && path[|path| - |tail|..] == tail
       && NodeId(path[|head|..|path| - |tail|])
    then Some(path[|head|..|path| - |tail|])
    else None
  }

  /** What a line of the log is: a commit marker, a new-file header (naming a node
      or not), an added status, a removed status, or anything else. */
  datatype Line = Marker(time: Option<int>) | File(node: Option<string>) | Added(status: string) | Removed | Other

  const ADDED := "+status:"
  const REMOVED := "-status:"

  function Classify(raw: string, folder: string): Line {
    if raw != "" && raw[0] == '\U{0001}' then
      Marker(if AllDigits(raw[1..]) then Some(NatValue(raw[1..]) * 1000) else None)
    else if "+++ " <= raw then
      File(if "+++ b/" <= raw then NodeOfPath(raw[6..], folder) else None)
    else if ADDED <= raw && OneLine(Trim(raw[8..])) then Added(Trim(raw[8..]))
    else if REMOVED <= raw then Removed
    else Other
  }

  // ---------- the walk ----------

  /** A node's timeline entry; `kind` is the type snapshot a cache adds. */
  datatype Entry = Entry(status: Option<string>, terminal: bool, runStart: Option<int>, kind: Option<string>)

  type State = map<string, Entry>
  type Terminal = (string, string) -> bool

  /** What the loop holds besides the state: the commit time, the open file, and
      the status changes seen in it so far. */
  datatype Cursor = Cursor(time: Option<int>, file: Option<string>, added: Option<string>, removed: bool)
  datatype Walk = Walk(state: State, cursor: Cursor)

  /** One status change of one node: the new status, or none when the line was deleted. */
  datatype Delta = Delta(node: string, time: Option<int>, status: Option<string>)

  function Apply(state: State, d: Delta, terminal: Terminal): State {
    var cur := if d.node in state then state[d.node] else Entry(None, false, None, None);
    var term := d.status.Some? && terminal(d.status.value, d.node);
    var start := if term && !cur.terminal then d.time else if !term then None else cur.runStart;
    state[d.node := Entry(d.status, term, start, cur.kind)]
  }

  /** The change pending for the open file, if its status line changed. */
  function Pending(c: Cursor): Option<Delta> {
    if c.file.None? then None
    else if c.added.Some? then Some(Delta(c.file.value, c.time, c.added))
    else if c.removed then Some(Delta(c.file.value, c.time, None))
    else None
  }

  function Flush(state: State, c: Cursor, terminal: Terminal): State {
    if Pending(c).Some? then Apply(state, Pending(c).value, terminal) else state
  }

  function Move(c: Cursor, line: Line): Cursor {
    match line
    case Marker(t) => Cursor(t, None, None, false)
    case File(node) => Cursor(c.time, node, None, false)
    case Added(s) => if c.file.None? then c else c.(added := Some(s))
    case Removed => if c.file.None? then c else c.(removed := true)
    case Other => c
  }

  /** A marker or a file header ends the open file. */
  predicate Ends(line: Line) {
    line.Marker? || line.File?
  }

  function Step(w: Walk, line: Line, terminal: Terminal): Walk {
    Walk(if Ends(line) then Flush(w.state, w.cursor, terminal) else w.state, Move(w.cursor, line))
  }

  function Steps(w: Walk, lines: seq<Line>, terminal: Terminal): Walk {
    if lines == [] then w else Step(Steps(w, lines[..|lines| - 1], terminal), lines[|lines| - 1], terminal)
  }

  function Start(base: State): Walk {
    Walk(base, Cursor(None, None, None, false))
  }

  /** The state after folding a log onto an earlier state. */
  function Fold(lines: seq<Line>, terminal: Terminal, base: State): State {
    var w := Steps(Start(base), lines, terminal);
    Flush(w.state, w.cursor, terminal)
  }

  function ClassifyAll(log: seq<string>, folder: string): seq<Line> {
    seq(|log|, i requires 0 <= i < |log| => Classify(log[i], folder))
  }

  /** The loop of the source over the lines of the log. */
  method FoldStatusTransitionState(log: seq<string>, folder: string, terminal: Terminal, base: State) returns (state: State)
    ensures state == Fold(ClassifyAll(log, folder), terminal, base)
  {
    var w := Start(base);
    for i := 0 to |log|
      invariant w == Steps(Start(base), ClassifyAll(log, folder)[..i], terminal)
    {
      var line := Classify(log[i], folder);
      assert ClassifyAll(log, folder)[..i + 1][..i] == ClassifyAll(log, folder)[..i];
      if Ends(line) {
        w := w.(state := Flush(w.state, w.cursor, terminal));
      }
      w := w.(cursor := Move(w.cursor, line));
    }
    assert ClassifyAll(log, folder)[..|log|] == ClassifyAll(log, folder);
    state := Flush(w.state, w.cursor, terminal);
  }

  /** The closed-at map: every node in a terminal run, at the start of that run. */
  function Closed(state: State): map<string, int> {
    map id | id in state && state[id].terminal && state[id].runStart.Some? :: state[id].runStart.value
  }

  // ---------- a log as a list of status changes ----------

  function CursorAfter(lines: seq<Line>): Cursor {
    if lines == [] then Cursor(None, None, None, false)
    else Move(CursorAfter(lines[..|lines| - 1]), lines[|lines| - 1])
  }

  function PendingList(c: Cursor): seq<Delta> {
    if Pending(c).Some? then [Pending(c).value] else []
  }

  /** The changes a log makes, in order, the last pending one excluded. */
  function Settled(lines: seq<Line>): seq<Delta> {
    if lines == [] then []
    else
      var init := lines[..|lines| - 1];
      Settled(init) + if Ends(lines[|lines| - 1]) then PendingList(CursorAfter(init)) else []
  }

  function Deltas(lines: seq<Line>): seq<Delta> {
    Settled(lines) + PendingList(CursorAfter(lines))
  }

  function ApplyAll(base: State, ds: seq<Delta>, terminal: Terminal): State {
    if ds == [] then base else Apply(ApplyAll(base, ds[..|ds| - 1], terminal), ds[|ds| - 1], terminal)
  }

  lemma {:induction false} StepsApplySettled(lines: seq<Line>, base: State, terminal: Terminal)
    ensures Steps(Start(base), lines, terminal) == Walk(ApplyAll(base, Settled(lines), terminal), CursorAfter(lines))
  {
    if lines != [] {
      var init := lines[..|lines| - 1];
      StepsApplySettled(init, base, terminal);
      ApplyPending(base, Settled(init), CursorAfter(init), terminal);
      assert Settled(init) + [] == Settled(init);
    }
  }

  lemma ApplyPending(base: State, ds: seq<Delta>, c: Cursor, terminal: Terminal)
    ensures ApplyAll(base, ds + PendingList(c), terminal) == Flush(ApplyAll(base, ds, terminal), c, terminal)
  {
    if Pending(c).Some? {
      assert (ds + PendingList(c))[..|ds|] == ds;
    } else {
      assert ds + PendingList(c) == ds;
    }
  }

  /** The fold of a log is its changes, applied in order. */
  lemma FoldIsItsDeltas(lines: seq<Line>, terminal: Terminal, base: State)
    ensures Fold(lines, terminal, base) == ApplyAll(base, Deltas(lines), terminal)
  {
    StepsApplySettled(lines, base, terminal);
    ApplyPending(base, Settled(lines), CursorAfter(lines), terminal);
  }

  // ---------- composition ----------

  lemma {:induction false} ApplyAllConcat(base: State, a: seq<Delta>, b: seq<Delta>, terminal: Terminal)
    ensures ApplyAll(base, a + b, terminal) == ApplyAll(ApplyAll(base, a, terminal), b, terminal)
  {
    if b == [] {
      assert a + b == a;
    } else {
      assert (a + b)[..|a + b| - 1] == a + b[..|b| - 1];
      ApplyAllConcat(base, a, b[..|b| - 1], terminal);
    }
  }

  /** A log that begins at a commit marker leaves nothing of the one before open. */
  lemma {:induction false} DeltasSplit(a: seq<Line>, b: seq<Line>)
    requires b != [] && b[0].Marker?
    ensures CursorAfter(a + b) == CursorAfter(b) && Settled(a + b) == Deltas(a) + Settled(b)
    decreases |b|
  {
    var init, last := b[..|b| - 1], b[|b| - 1];
    assert (a + b)[..|a + b| - 1] == a + init;
    if |b| == 1 {
      assert a + init == a;
      assert Settled(init) == [] && PendingList(CursorAfter(init)) == [];
    } else {
      DeltasSplit(a, init);
    }
  }

  /** Composition: folding a log split at any commit boundary onto the earlier
      state is folding the whole log. */
  lemma FoldComposes(a: seq<Line>, b: seq<Line>, terminal: Terminal, base: State)
    requires b == [] || b[0].Marker?
    ensures Fold(a + b, terminal, base) == Fold(b, terminal, Fold(a, terminal, base))
  {
    FoldIsItsDeltas(a, terminal, base);
    FoldIsItsDeltas(b, terminal, Fold(a, terminal, base));
    FoldIsItsDeltas(a + b, terminal, base);
    if b == [] {
      assert a + b == a;
      assert Deltas(b) == [] + [];
    } else {
      DeltasSplit(a, b);
      assert Deltas(a + b) == Deltas(a) + Deltas(b);
      ApplyAllConcat(base, Deltas(a), Deltas(b), terminal);
    }
  }

  // ---------- what an entry says ----------

  /** The status history of one node: its changes, in order. */
  function History(ds: seq<Delta>, node: string): seq<Delta> {
    if ds == [] then []
    else History(ds[..|ds| - 1], node) + if ds[|ds| - 1].node == node then [ds[|ds| - 1]] else []
  }

  predicate IsTerminal(d: Delta, terminal: Terminal) {
    d.status.Some? && terminal(d.status.value, d.node)
  }

  /** `k` begins the maximal terminal suffix of a history. */
  ghost predicate BeginsTerminalRun(h: seq<Delta>, k: int, terminal: Terminal) {
    && 0 <= k < |h|
    && (forall i | k <= i < |h| :: IsTerminal(h[i], terminal))
    && (k > 0 ==> !IsTerminal(h[k - 1], terminal))
  }

  lemma {:induction false} EntryReflectsHistory(ds: seq<Delta>, node: string, terminal: Terminal)
    ensures var h, state := History(ds, node), ApplyAll(map[], ds, terminal);
      && (node in state <==> h != [])
      && (h != [] ==>
            && state[node].status == h[|h| - 1].status
            && state[node].kind.None?
            && state[node].terminal == IsTerminal(h[|h| - 1], terminal)
            && (!state[node].terminal ==> state[node].runStart.None?)
            && (state[node].terminal ==>
                  exists k :: BeginsTerminalRun(h, k, terminal) && state[node].runStart == h[k].time))
  {
    if ds != [] {
      var init, d := ds[..|ds| - 1], ds[|ds| - 1];
      EntryReflectsHistory(init, node, terminal);
      var h, h' := History(init, node), History(ds, node);
      var state := ApplyAll(map[], init, terminal);
      if d.node == node && IsTerminal(d, terminal) {
        if h != [] && state[node].terminal {
          var k :| BeginsTerminalRun(h, k, terminal) && state[node].runStart == h[k].time;
          assert BeginsTerminalRun(h', k, terminal) && h'[k] == h[k];
        } else {
          assert BeginsTerminalRun(h', |h|, terminal);
        }
      } else if d.node != node {
        assert h' == h;
      }
    }
  }

  /** A node's closed-at is the time of the commit that began the maximal terminal
      suffix of its status history, and only a node whose last status is terminal has one. */
  lemma ClosedAtBeginsTheRun(lines: seq<Line>, node: string, terminal: Terminal)
    ensures var h, closed := History(Deltas(lines), node), Closed(Fold(lines, terminal, map[]));
      && (node in closed ==>
            exists k :: BeginsTerminalRun(h, k, terminal) && h[k].time == Some(closed[node]))
      && (forall k | BeginsTerminalRun(h, k, terminal) && h[k].time.Some? ::
            node in closed && closed[node] == h[k].time.value)
  {
    FoldIsItsDeltas(lines, terminal, map[]);
    EntryReflectsHistory(Deltas(lines), node, terminal);
    var h := History(Deltas(lines), node);
    forall k, m | BeginsTerminalRun(h, k, terminal) && BeginsTerminalRun(h, m, terminal)
      ensures k == m
    {
      OneRunStart(h, k, m, terminal);
    }
  }

  lemma OneRunStart(h: seq<Delta>, k: int, m: int, terminal: Terminal)
    requires BeginsTerminalRun(h, k, terminal) && BeginsTerminalRun(h, m, terminal)
    ensures k == m
  {
  }

  /** When the terminal run at the end of a history began; none if its last status is not terminal. */
  function RunBegan(h: seq<Delta>, terminal: Terminal): Option<int> {
    if h == [] || !IsTerminal(h[|h| - 1], terminal) then None
    else if |h| > 1 && IsTerminal(h[|h| - 2], terminal) then RunBegan(h[..|h| - 1], terminal)
    else h[|h| - 1].time
  }

  lemma {:induction false} EntryBegan(ds: seq<Delta>, node: string, terminal: Terminal)
    ensures var h, state := History(ds, node), ApplyAll(map[], ds, terminal);
            (node in state <==> h != []) && (h != [] ==> state[node].terminal == IsTerminal(h[|h| - 1], terminal))
            && (h != [] ==> state[node].runStart == RunBegan(h, terminal))
  {
    if ds != [] {
      EntryBegan(ds[..|ds| - 1], node, terminal);
      var h, h', d := History(ds[..|ds| - 1], node), History(ds, node), ds[|ds| - 1];
      if d.node == node {
        assert h' == h + [d] && h'[..|h'| - 1] == h;
      } else {
        assert h' == h;
      }
    }
  }

  function Began(lines: seq<Line>, node: string, terminal: Terminal): Option<int> {
    RunBegan(History(Deltas(lines), node), terminal)
  }

  lemma ClosedWhenBegan(lines: seq<Line>, node: string, terminal: Terminal)
    ensures var closed, began := Closed(Fold(lines, terminal, map[])), Began(lines, node, terminal);
            (node in closed <==> began.Some?) && (began.Some? ==> closed[node] == began.value)
  {
    hide Fold, Deltas;
    FoldIsItsDeltas(lines, terminal, map[]);
    EntryBegan(Deltas(lines), node, terminal);
  }

  /** The closing run of every node began at the same time, or there is none. */
  ghost predicate SameRuns(lines: seq<Line>, p: Terminal, q: Terminal) {
    forall node :: Began(lines, node, p) == Began(lines, node, q)
  }

  /** Two predicates give the same closed-at map exactly when they see every closing run begin at the same time. */
  lemma ClosedAlike(lines: seq<Line>, p: Terminal, q: Terminal)
    ensures Closed(Fold(lines, p, map[])) == Closed(Fold(lines, q, map[])) <==> SameRuns(lines, p, q)
  {
    hide Fold, Began, Closed;
    var a, b := Closed(Fold(lines, p, map[])), Closed(Fold(lines, q, map[]));
    forall node
      ensures Began(lines, node, p) == Began(lines, node, q) <==> (node in a <==> node in b) && (node in a ==> a[node] == b[node])
    {
      ClosedWhenBegan(lines, node, p);
      ClosedWhenBegan(lines, node, q);
    }
    if SameRuns(lines, p, q) {
      forall node
        ensures (node in a <==> node in b) && (node in a ==> a[node] == b[node])
      {
        assert Began(lines, node, p) == Began(lines, node, q);
      }
      assert a.Keys == b.Keys;
    }
  }
}
