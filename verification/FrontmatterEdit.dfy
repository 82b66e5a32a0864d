/** The edge editors: they splice by the line ranges the lexer gave, and act on what the lines
    parse to (`lib/kernel/frontmatter.js`). */
module FrontmatterEdit {
  import opened Common
  import opened ContentText
  import opened FrontmatterScalar
  import opened FrontmatterLines
  import opened FrontmatterLexer
  import opened FrontmatterCore

  /** The lexer's state before line `i`, of lines seen so and no header with a value among them. */
  function Before(vs: seq<View>, i: nat): Lex
    requires i <= |vs|
  {
    if i == 0 then EMPTY else Step(Before(vs, i - 1), i - 1, vs[i - 1])
  }

  lemma {:induction false} LexPasses(reader: Reader, lines: seq<Text>, i: nat)
    requires i <= |lines| && AllBare(reader, lines)
    ensures LexFrom(reader, lines, 0, EMPTY) == LexFrom(reader, lines, i, Before(Views(lines), i))
  {
    hide LexFrom, Step, Turn, Bare, ViewOf;
    if i > 0 {
      LexPasses(reader, lines, i - 1);
      BareTurn(reader, lines, i - 1, Before(Views(lines), i - 1));
      TurnOf(reader, lines, i - 1, Before(Views(lines), i - 1));
    }
  }

  lemma LexEnds(reader: Reader, lines: seq<Text>)
    requires AllBare(reader, lines)
    ensures Lexed(reader, lines) == Flush(Before(Views(lines), |lines|), |lines|)
  {
    hide LexFrom, Flush, Before, AllBare;
    LexPasses(reader, lines, |lines|);
    AtEnd(reader, lines, Before(Views(lines), |lines|));
  }

  lemma {:induction false} BeforeIsRun(vs: seq<View>, i: nat)
    requires i <= |vs|
    ensures CoreOf(Before(vs, i)) == CoreRun(START, vs[..i])
  {
    hide Step, CoreStep, CoreOf;
    if i > 0 {
      BeforeIsRun(vs, i - 1);
      StepIsCore(Before(vs, i - 1), i - 1, vs[i - 1]);
      assert vs[..i] == vs[..i - 1] + [vs[i - 1]];
      RunConcat(START, vs[..i - 1], [vs[i - 1]]);
      OneStep(CoreRun(START, vs[..i - 1]), vs[i - 1]);
    } else {
      StartIsEmpty();
      assert vs[..0] == [];
    }
  }

  lemma StartIsEmpty()
    ensures CoreOf(EMPTY) == START
  {
  }

  /** A block without a fault has none at any point on the way. */
  lemma NoFaultBefore(vs: seq<View>, i: nat)
    requires i <= |vs| && !Outcome(vs).faulty
    ensures i == |vs| ==> !CoreFlush(CoreRun(START, vs[..i])).faulty
    ensures !CoreRun(START, vs[..i]).faulty
  {
    hide CoreStep, CoreFlush, CoreRun;
    assert vs == vs[..i] + vs[i..];
    RunConcat(START, vs[..i], vs[i..]);
    if CoreRun(START, vs[..i]).faulty {
      FaultStaysInRun(CoreRun(START, vs[..i]), vs[i..]);
    }
    if i == |vs| {
      assert vs[..i] == vs;
    }
  }

  // ---------- where each edge stands ----------

  /** The state just before line `i`. */
  function At(vs: seq<View>, i: nat): Core
    requires i <= |vs|
  {
    CoreRun(START, vs[..i])
  }

  lemma AtNext(vs: seq<View>, i: nat)
    requires i < |vs|
    ensures At(vs, i + 1) == CoreStep(At(vs, i), vs[i])
  {
    hide CoreStep, CoreRun;
    assert vs[..i + 1] == vs[..i] + [vs[i]];
    RunConcat(START, vs[..i], [vs[i]]);
    OneStep(At(vs, i), vs[i]);
  }

  /** The edge at `k` covers exactly its own lines: a flow line, or a block from its opening line to
      the line that closes it. */
  ghost predicate WellPlaced(vs: seq<View>, edges: seq<Placed>, k: nat)
    requires k < |edges|
  {
    var e := edges[k];
    && e.start < e.end <= |vs|
    && CoreFlush(At(vs, e.start)).edges == PropsIn(edges[..k])
    && match e.form
       case Flow => e.end == e.start + 1 && vs[e.start] == FlowLine(e.props)
       case Block =>
         && At(vs, e.start).mode.UnderEdges? && Complete(e.props)
         && (e.end == |vs| || Closing(vs[e.end]))
         && At(vs, e.end) == CoreFlush(At(vs, e.start)).(mode := UnderEdges(Some(e.props)))
       case Inline => false
  }

  ghost predicate AllPlaced(vs: seq<View>, edges: seq<Placed>) {
    forall k | 0 <= k < |edges| :: WellPlaced(vs, edges, k)
  }

  /** The block edge under construction covers the lines since its opening one. */
  ghost predicate OpenPlaced(vs: seq<View>, x: Lex, i: nat) {
    x.mode.InEdges? && x.mode.open.Some? ==>
      var o := x.mode.open.value;
      && o.start < i <= |vs|
      && At(vs, o.start).mode.UnderEdges?
      && CoreFlush(At(vs, o.start)).edges == PropsIn(x.edges)
      && At(vs, i) == CoreFlush(At(vs, o.start)).(mode := UnderEdges(Some(o.props)))
  }

  lemma PlacedAppend(vs: seq<View>, edges: seq<Placed>, e: Placed)
    requires AllPlaced(vs, edges)
    requires e.start <= |vs| && CoreFlush(At(vs, e.start)).edges == PropsIn(edges)
    requires WellPlaced(vs, edges + [e], |edges|)
    ensures AllPlaced(vs, edges + [e])
  {
    hide At, CoreFlush, Complete;
    var all := edges + [e];
    forall k | 0 <= k < |all|
      ensures WellPlaced(vs, all, k)
    {
      if k < |edges| {
        assert WellPlaced(vs, edges, k);
        assert all[..k] == edges[..k];
      }
    }
  }

  /** Closing the open edge at a line that closes it, or at the end, places it. */
  lemma FlushPlaces(vs: seq<View>, x: Lex, i: nat)
    requires i <= |vs| && AllPlaced(vs, x.edges) && OpenPlaced(vs, x, i)
    requires i == |vs| || Closing(vs[i])
    requires !CoreFlush(At(vs, i)).faulty && CoreOf(x) == At(vs, i)
    ensures AllPlaced(vs, Flush(x, i).edges)
    ensures PropsIn(Flush(x, i).edges) == CoreFlush(At(vs, i)).edges
  {
    hide At, Complete, AllPlaced;
    FlushIsCore(x, i);
    if x.mode.InEdges? && x.mode.open.Some? {
      var o := x.mode.open.value;
      var e := Placed(o.props, Block, o.start, i);
      assert (x.edges + [e])[..|x.edges|] == x.edges;
      PlacedAppend(vs, x.edges, e);
    }
  }

  /** Everything read before line `i` stands where the lexer says. */
  lemma {:induction false} EdgesPlaced(vs: seq<View>, i: nat)
    requires i <= |vs| && !Outcome(vs).faulty
    ensures var x := Before(vs, i); AllPlaced(vs, x.edges) && OpenPlaced(vs, x, i)
  {
    hide Step, At, AllPlaced, CoreFlush, OpenPlaced, Outcome, CoreRun, CoreOf;
    if i == 0 {
      NothingPlaced(vs);
    } else {
      EdgesPlaced(vs, i - 1);
      BeforeIsRun(vs, i - 1);
      NoFaultBefore(vs, i);
      NoFaultAt(vs, i);
      StepPlaces(vs, Before(vs, i - 1), i - 1);
    }
  }

  lemma NothingPlaced(vs: seq<View>)
    ensures AllPlaced(vs, []) && OpenPlaced(vs, EMPTY, 0)
  {
  }

  lemma NoFaultAt(vs: seq<View>, i: nat)
    requires i <= |vs| && !CoreRun(START, vs[..i]).faulty
    ensures !At(vs, i).faulty
  {
  }

  lemma StepPlaces(vs: seq<View>, x: Lex, i: nat)
    requires i < |vs| && AllPlaced(vs, x.edges) && OpenPlaced(vs, x, i)
    requires CoreOf(x) == CoreRun(START, vs[..i]) && !At(vs, i + 1).faulty
    ensures AllPlaced(vs, Step(x, i, vs[i]).edges) && OpenPlaced(vs, Step(x, i, vs[i]), i + 1)
  {
    hide AllPlaced, CoreFlush, OpenPlaced, CoreRun, CoreOf, Flush, Complete, At;
    AtIs(vs, i);
    AtNext(vs, i);
    var v := vs[i];
    if Closing(v) {
      ClosingStepKeepsFault(At(vs, i), v);
      FlushPlaces(vs, x, i);
      ClosingStepPlaces(vs, x, i);
    } else {
      QuietStepPlaces(vs, x, i);
    }
  }

  lemma AtIs(vs: seq<View>, i: nat)
    requires i <= |vs|
    ensures At(vs, i) == CoreRun(START, vs[..i])
  {
  }

  lemma ClosingStepKeepsFault(c: Core, v: View)
    requires Closing(v) && !CoreStep(c, v).faulty
    ensures !CoreFlush(c).faulty
  {
    hide Complete, QuoteOpen, ScalarValue, Trim, Put, IsListField, TextOf, ItemsOf;
  }

  lemma ClosingStepPlaces(vs: seq<View>, x: Lex, i: nat)
    requires i < |vs| && Closing(vs[i]) && CoreOf(x) == At(vs, i)
    requires AllPlaced(vs, x.edges) && AllPlaced(vs, Flush(x, i).edges) && OpenPlaced(vs, x, i)
    requires PropsIn(Flush(x, i).edges) == CoreFlush(At(vs, i)).edges
    requires At(vs, i + 1) == CoreStep(At(vs, i), vs[i])
    ensures AllPlaced(vs, Step(x, i, vs[i]).edges) && OpenPlaced(vs, Step(x, i, vs[i]), i + 1)
  {
    hide AllPlaced, CoreFlush, Flush, Complete, At, IsListField, Put, ScalarValue, Trim;
    var v, y := vs[i], Flush(x, i);
    match v
    case FlowLine(props) =>
      var e := Placed(props, Flow, i, i + 1);
      assert (y.edges + [e])[..|y.edges|] == y.edges;
      PlacedAppend(vs, y.edges, e);
    case Other(_, _, _, _, _) =>
    case _ =>
  }

  lemma QuietStepPlaces(vs: seq<View>, x: Lex, i: nat)
    requires i < |vs| && !Closing(vs[i]) && CoreOf(x) == At(vs, i) && !At(vs, i + 1).faulty
    requires AllPlaced(vs, x.edges) && OpenPlaced(vs, x, i)
    requires At(vs, i + 1) == CoreStep(At(vs, i), vs[i])
    ensures AllPlaced(vs, Step(x, i, vs[i]).edges) && OpenPlaced(vs, Step(x, i, vs[i]), i + 1)
  {
    hide AllPlaced, CoreFlush, Flush, Complete, At, Put, ScalarValue, Trim, QuoteOpen, TextOf, ItemsOf;
  }

  // ---------- the two edge editors ----------

  lemma ContIsNotBlank(s: Text)
    requires BlockCont(s).Some?
    ensures !IsBlankOrComment(s)
  {
    var t := TrimStart(s);
    assert Run(t) != [] && t[0] == Run(t)[0];
    assert IsKeyUnit(t[0]);
    TrimEndKeepsFirst(t);
  }

  lemma {:induction false} TrimEndKeepsFirst(t: Text)
    requires t != [] && !IsWhite(t[0])
    ensures TrimEnd(t) != [] && TrimEnd(t)[0] == t[0]
  {
    if |t| > 1 {
      TrimEndKeepsFirst(t[..|t| - 1]);
    }
  }

  lemma LinesAreSane(lines: seq<Text>)
    ensures Sane(Views(lines))
  {
    forall i | 0 <= i < |lines| && Views(lines)[i].Other? && Views(lines)[i].cont.Some?
      ensures !Views(lines)[i].blank
    {
      ContIsNotBlank(lines[i]);
    }
  }

  lemma SaneTail(vs: seq<View>, i: nat)
    requires Sane(vs) && i <= |vs|
    ensures Sane(vs[i..])
  {
    forall k | 0 <= k < |vs[i..]| && vs[i..][k].Other? && vs[i..][k].cont.Some?
      ensures !vs[i..][k].blank
    {
      assert vs[i..][k] == vs[i + k];
    }
  }

  function Cut<T>(lines: seq<T>, start: nat, end: nat): seq<T>
    requires start <= end <= |lines|
  {
    lines[..start] + lines[end..]
  }

  lemma CutIsBare(reader: Reader, lines: seq<Text>, start: nat, end: nat)
    requires start <= end <= |lines| && AllBare(reader, lines)
    ensures AllBare(reader, Cut(lines, start, end))
    ensures Views(Cut(lines, start, end)) == Views(lines)[..start] + Views(lines)[end..]
  {
    hide Bare;
  }

  lemma FinalPlaced(reader: Reader, lines: seq<Text>)
    requires AllBare(reader, lines) && Lexed(reader, lines).faults == []
    ensures !Outcome(Views(lines)).faulty
    ensures PropsIn(Lexed(reader, lines).edges) == Outcome(Views(lines)).edges
    ensures Lexed(reader, lines).fields == Outcome(Views(lines)).fields
    ensures AllPlaced(Views(lines), Lexed(reader, lines).edges)
  {
    hide LexFrom, CoreFlush, CoreRun, AllPlaced, OpenPlaced, AllBare, Flush, At, Before;
    var vs := Views(lines);
    LexedIsOutcome(reader, lines);
    LexEnds(reader, lines);
    EdgesPlaced(vs, |lines|);
    BeforeIsRun(vs, |lines|);
    assert vs[..|lines|] == vs;
    AtIs(vs, |vs|);
    FlushPlaces(vs, Before(vs, |lines|), |lines|);
  }

  /** Cutting the lines of one edge out of a block without faults takes that edge and nothing else. */
  lemma EdgeCutActs(reader: Reader, lines: seq<Text>, k: nat)
    requires AllBare(reader, lines) && Lexed(reader, lines).faults == [] && k < |Lexed(reader, lines).edges|
    ensures var was := Lexed(reader, lines);
            var e := was.edges[k];
            && e.start <= e.end <= |lines|
            && var now := Lexed(reader, Cut(lines, e.start, e.end));
               now.faults == [] && now.fields == was.fields && PropsIn(now.edges) == Dropped(PropsIn(was.edges), k)
  {
    hide LexFrom, Lexed, CoreFlush, CoreRun, AllBare, WellPlaced, AllPlaced, Outcome;
    var was, vs := Lexed(reader, lines), Views(lines);
    FinalPlaced(reader, lines);
    EachPlaced(vs, was.edges, k);
    PlacedEdgeDrops(vs, was.edges, k);
    var e := was.edges[k];
    LinesAreSane(lines);
    CutIsBare(reader, lines, e.start, e.end);
    LexedIsOutcome(reader, Cut(lines, e.start, e.end));
  }

  lemma PlacedEdgeDrops(vs: seq<View>, edges: seq<Placed>, k: nat)
    requires k < |edges| && WellPlaced(vs, edges, k) && PropsIn(edges) == Outcome(vs).edges && !Outcome(vs).faulty
    ensures var e := edges[k];
            && e.start <= e.end <= |vs|
            && (Sane(vs) ==>
                  var now := Outcome(vs[..e.start] + vs[e.end..]);
                  !now.faulty && now.fields == Outcome(vs).fields && now.edges == Dropped(PropsIn(edges), k))
  {
    hide CoreFlush, CoreRun, Complete, Closing, Sane;
    var e := edges[k];
    var a, b := vs[..e.start], vs[e.end..];
    assert PropsIn(edges)[..k] == PropsIn(edges[..k]);
    if Sane(vs) {
      SaneTail(vs, e.end);
      if e.form.Flow? {
        assert vs == a + [FlowLine(e.props)] + b;
        WithoutFlow(a, e.props, b);
      } else {
        var block := vs[e.start..e.end];
        assert vs == a + block + b && vs[..e.end] == a + block;
        RunConcat(START, a, block);
        WithoutBlock(a, block, e.props, b);
      }
    }
  }

  /** Every edge stands within the first `n` lines. */
  ghost predicate InBounds(edges: seq<Placed>, n: nat) {
    forall k | 0 <= k < |edges| :: edges[k].start <= edges[k].end <= n
  }

  ghost predicate OpenInBounds(m: Mode, n: nat) {
    m.InEdges? && m.open.Some? ==> m.open.value.start <= n
  }

  lemma {:induction false} BeforeInBounds(vs: seq<View>, i: nat)
    requires i <= |vs|
    ensures InBounds(Before(vs, i).edges, i) && OpenInBounds(Before(vs, i).mode, i)
  {
    hide Step;
    if i > 0 {
      BeforeInBounds(vs, i - 1);
      StepInBounds(Before(vs, i - 1), i - 1, vs[i - 1]);
    }
  }

  lemma StepInBounds(x: Lex, i: nat, v: View)
    requires InBounds(x.edges, i) && OpenInBounds(x.mode, i)
    ensures InBounds(Step(x, i, v).edges, i + 1) && OpenInBounds(Step(x, i, v).mode, i + 1)
    ensures InBounds(Flush(x, i).edges, i)
  {
    hide Complete, QuoteOpen, ScalarValue, Trim, Put, IsListField, TextOf, ItemsOf, ExtendTo;
  }

  /** With or without faults, every edge is read from lines there are. */
  lemma LexedInBounds(reader: Reader, lines: seq<Text>)
    requires AllBare(reader, lines)
    ensures InBounds(Lexed(reader, lines).edges, |lines|)
  {
    hide LexFrom, Lexed, Before, AllBare, Flush, Step, InBounds, OpenInBounds;
    var x := Before(Views(lines), |lines|);
    LexEnds(reader, lines);
    BeforeInBounds(Views(lines), |lines|);
    StepInBounds(x, |lines|, FlowLine([]));
  }

  /** Cut the first edge the predicate takes, where no header carries a value. */
  method CutEdge(reader: Reader, lines: seq<Text>, matches: Props -> bool) returns (r: Option<seq<Text>>)
    requires AllBare(reader, lines)
    ensures var was := PropsIn(Lexed(reader, lines).edges);
            match r
            case None => forall k | 0 <= k < |was| :: !matches(was[k])
            case Some(edited) =>
              AllBare(reader, edited)
              && exists k | 0 <= k < |was| ::
                   && matches(was[k]) && (forall j | 0 <= j < k :: !matches(was[j]))
                   && (Lexed(reader, lines).faults == [] ==>
                         var now := Lexed(reader, edited);
                         now.faults == [] && now.fields == Lexed(reader, lines).fields && PropsIn(now.edges) == Dropped(was, k))
  {
    hide Lexed, AllBare, Dropped;
    var lex := LexFrontmatter(reader, lines);
    LexedInBounds(reader, lines);
    for k := 0 to |lex.edges|
      invariant forall j | 0 <= j < k :: !matches(lex.edges[j].props)
    {
      if matches(lex.edges[k].props) {
        if lex.faults == [] {
          EdgeCutActs(reader, lines, k);
        }
        var hit := lex.edges[k];
        CutIsBare(reader, lines, hit.start, hit.end);
        r := Some(lines[..hit.start] + lines[hit.end..]);
        assert PropsIn(lex.edges)[k] == hit.props;
        return;
      }
    }
    r := None;
  }

  // ---------- a new edge ----------

  /** The line of the last `edges:` header. */
  function LastEdgesKey(entries: seq<Entry>): Option<nat> {
    if entries == [] then None
    else if entries[|entries| - 1].kind == EdgesEntry then Some(entries[|entries| - 1].start)
    else LastEdgesKey(entries[..|entries| - 1])
  }

  /** The largest end of any edge. */
  function LastEdgeEnd(edges: seq<Placed>): (m: int)
    ensures m >= -1 && forall k | 0 <= k < |edges| :: edges[k].end <= m
    ensures m >= 0 ==> exists k :: 0 <= k < |edges| && edges[k].end == m
  {
    if edges == [] then -1
    else
      var m := LastEdgeEnd(edges[..|edges| - 1]);
      if edges[|edges| - 1].end > m then edges[|edges| - 1].end else m
  }

  /** The entries the lexer marks as `edges:` start at such a header. */
  ghost predicate HeadsPlaced(vs: seq<View>, entries: seq<Entry>, i: nat) {
    forall k | 0 <= k < |entries| && entries[k].kind == EdgesEntry ::
      entries[k].start < i <= |vs| && vs[entries[k].start].KeyLine? && vs[entries[k].start].key == EDGES
  }

  lemma {:induction false} HeadsStand(vs: seq<View>, i: nat)
    requires i <= |vs|
    ensures HeadsPlaced(vs, Before(vs, i).entries, i)
  {
    hide Step, HeadsPlaced;
    if i > 0 {
      HeadsStand(vs, i - 1);
      HeadsStep(vs, Before(vs, i - 1), i - 1);
    } else {
      NoHeads(vs);
    }
  }

  lemma NoHeads(vs: seq<View>)
    ensures HeadsPlaced(vs, [], 0)
  {
  }

  lemma HeadsStep(vs: seq<View>, x: Lex, i: nat)
    requires i < |vs| && HeadsPlaced(vs, x.entries, i)
    ensures HeadsPlaced(vs, Step(x, i, vs[i]).entries, i + 1)
  {
    StepEntries(x, i, vs[i]);
  }

  /** A step adds an entry for its own line, or at most moves the end of the last one. */
  lemma StepEntries(x: Lex, i: nat, v: View)
    ensures var y := Step(x, i, v).entries;
            || y == x.entries || y == ExtendTo(x.entries, i)
            || (v.ListLine? && y == x.entries + [Entry(ListEntry, v.key, i, i + 1, false)])
            || (v.KeyLine? && |y| == |x.entries| + 1 && y[..|x.entries|] == x.entries && y[|x.entries|].start == i
                && (y[|x.entries|].kind == EdgesEntry <==> v.key == EDGES))
  {
    hide Complete, QuoteOpen, ScalarValue, Trim, Put, IsListField, TextOf, ItemsOf, ExtendTo;
    var y := Flush(x, i);
    assert y.entries == x.entries;
  }

  lemma {:induction false} LastKeyIsHead(vs: seq<View>, entries: seq<Entry>, i: nat)
    requires HeadsPlaced(vs, entries, i) && LastEdgesKey(entries).Some?
    ensures var s := LastEdgesKey(entries).value; s < i <= |vs| && vs[s].KeyLine? && vs[s].key == EDGES
  {
    if entries[|entries| - 1].kind != EdgesEntry {
      LastKeyIsHead(vs, entries[..|entries| - 1], i);
    }
  }

  /** What is read after line `p` ends after it, but for an edge left open there. */
  ghost predicate EndsAfter(edges: seq<Placed>, n: nat, p: nat, open: bool) {
    n <= |edges| && forall k | n <= k < |edges| :: edges[k].end > p || (k == n && open && edges[k].end == p)
  }

  lemma {:induction false} LaterEdges(vs: seq<View>, p: nat, q: nat)
    requires p <= q <= |vs|
    ensures var x, y := Before(vs, p), Before(vs, q);
            EndsAfter(y.edges, |x.edges|, p, x.mode.InEdges? && x.mode.open.Some?) && y.edges[..|x.edges|] == x.edges
  {
    hide Step;
    if p < q {
      LaterEdges(vs, p, q - 1);
      LaterStep(Before(vs, p), p, Before(vs, q - 1), q - 1, vs[q - 1]);
    }
  }

  lemma LaterStep(x: Lex, p: nat, y: Lex, q: nat, v: View)
    requires p <= q
    requires EndsAfter(y.edges, |x.edges|, p, x.mode.InEdges? && x.mode.open.Some?) && y.edges[..|x.edges|] == x.edges
    requires q == p ==> y == x
    ensures var z := Step(y, q, v);
            && EndsAfter(z.edges, |x.edges|, p, x.mode.InEdges? && x.mode.open.Some?)
            && z.edges[..|x.edges|] == x.edges
  {
    hide Complete, QuoteOpen, ScalarValue, Trim, Put, IsListField, TextOf, ItemsOf;
    var w := Flush(y, q);
    assert w.edges[..|x.edges|] == x.edges;
  }

  lemma LaterFlush(x: Lex, p: nat, y: Lex, q: nat)
    requires p <= q
    requires EndsAfter(y.edges, |x.edges|, p, x.mode.InEdges? && x.mode.open.Some?) && y.edges[..|x.edges|] == x.edges
    requires q == p ==> y == x
    ensures var z := Flush(y, q);
            EndsAfter(z.edges, |x.edges|, p, x.mode.InEdges? && x.mode.open.Some?) && z.edges[..|x.edges|] == x.edges
  {
    hide Complete;
  }

  /** Where the new line goes: after the last edge when one follows the last `edges:` key, else right
      after the key. */
  function InsertPoint(entries: seq<Entry>, edges: seq<Placed>): Option<nat> {
    match LastEdgesKey(entries)
    case None => None
    case Some(s) => if LastEdgeEnd(edges) > s then Some(LastEdgeEnd(edges)) else Some(s + 1)
  }

  function Inserted(lines: seq<Text>, p: nat, line: Text): seq<Text>
    requires p <= |lines|
  {
    lines[..p] + [line] + lines[p..]
  }

  lemma {:induction false} OpenComesOut(c: Core, vs: seq<View>)
    requires c.mode.UnderEdges? && c.mode.open.Some? && !CoreFlush(CoreRun(c, vs)).faulty
    ensures |CoreFlush(CoreRun(c, vs)).edges| > |c.edges|
    decreases |vs|
  {
    hide CoreStep, CoreFlush;
    if vs == [] {
      FlushGrows(c);
    } else {
      var v := vs[0];
      if Closing(v) {
        ClosingGrows(c, v);
        if CoreStep(c, v).faulty {
          FaultStaysInRun(CoreStep(c, v), vs[1..]);
        }
        EdgesGrow(CoreStep(c, v), vs[1..]);
      } else {
        StaysOpen(c, v);
        OpenComesOut(CoreStep(c, v), vs[1..]);
      }
    }
  }

  lemma FlushGrows(c: Core)
    requires c.mode.UnderEdges? && c.mode.open.Some? && !CoreFlush(c).faulty
    ensures |CoreFlush(c).edges| > |c.edges|
  {
    hide Complete;
  }

  lemma ClosingGrows(c: Core, v: View)
    requires c.mode.UnderEdges? && c.mode.open.Some? && Closing(v)
    ensures !CoreStep(c, v).faulty ==> |CoreStep(c, v).edges| > |c.edges|
  {
    hide Complete, ScalarValue, Trim, Put, IsListField;
  }

  lemma StaysOpen(c: Core, v: View)
    requires c.mode.UnderEdges? && c.mode.open.Some? && !Closing(v)
    ensures CoreStep(c, v).edges == c.edges && CoreStep(c, v).mode.UnderEdges? && CoreStep(c, v).mode.open.Some?
  {
    hide Complete, ScalarValue, Trim, Put;
  }

  lemma {:induction false} EdgesGrow(c: Core, vs: seq<View>)
    ensures |CoreFlush(CoreRun(c, vs)).edges| >= |c.edges|
    decreases |vs|
  {
    hide CoreStep, CoreFlush;
    StepGrows(c, if vs == [] then FlowLine([]) else vs[0]);
    if vs != [] {
      EdgesGrow(CoreStep(c, vs[0]), vs[1..]);
    }
  }

  lemma StepGrows(c: Core, v: View)
    ensures |CoreStep(c, v).edges| >= |c.edges| && |CoreFlush(c).edges| >= |c.edges|
  {
    hide Complete, ScalarValue, Trim, Put, IsListField, QuoteOpen, TextOf, ItemsOf;
  }

  /** At the insertion point every edge has been read, and none is open that the next line leaves open. */
  lemma PointIsAfterEdges(reader: Reader, lines: seq<Text>)
    requires AllBare(reader, lines) && Lexed(reader, lines).faults == []
    requires InsertPoint(Lexed(reader, lines).entries, Lexed(reader, lines).edges).Some?
    ensures var vs := Views(lines);
            var p := InsertPoint(Lexed(reader, lines).entries, Lexed(reader, lines).edges).value;
            && p <= |lines|
            && (!(At(vs, p).mode.UnderEdges? && At(vs, p).mode.open.Some?) || p == |lines| || Closing(vs[p]))
            && |Lexed(reader, lines).edges| == |CoreFlush(At(vs, p)).edges|
  {
    hide LexFrom, Lexed, CoreFlush, CoreRun, AllBare, Complete, Closing, Before, Flush, EndsAfter, HeadsPlaced, AllPlaced,
         LastEdgesKey, LastEdgeEnd, At, ViewOf;
    var lex, vs, n := Lexed(reader, lines), Views(lines), |lines|;
    FinalPlaced(reader, lines);
    LexEnds(reader, lines);
    FlushKeepsEntries(Before(vs, n), n);
    HeadsStand(vs, n);
    LastKeyIsHead(vs, lex.entries, n);
    var s, m := LastEdgesKey(lex.entries).value, LastEdgeEnd(lex.edges);
    if m > s {
      LastEnd(vs, lex.edges);
      PointAfterEdge(reader, lines, m);
    } else {
      PointAfterKey(reader, lines, s);
    }
  }

  lemma FlushKeepsEntries(x: Lex, i: nat)
    ensures Flush(x, i).entries == x.entries
  {
  }

  lemma LastEnd(vs: seq<View>, edges: seq<Placed>)
    requires AllPlaced(vs, edges) && LastEdgeEnd(edges) >= 0
    ensures LastEdgeEnd(edges) <= |vs|
  {
    hide LastEdgeEnd, At, CoreFlush, Complete;
    var k :| 0 <= k < |edges| && edges[k].end == LastEdgeEnd(edges);
    assert WellPlaced(vs, edges, k);
  }

  lemma PointAfterKey(reader: Reader, lines: seq<Text>, s: nat)
    requires AllBare(reader, lines) && Lexed(reader, lines).faults == []
    requires s < |lines| && Views(lines)[s].KeyLine? && Views(lines)[s].key == EDGES
    requires LastEdgeEnd(Lexed(reader, lines).edges) <= s
    ensures At(Views(lines), s + 1).mode == UnderEdges(None)
    ensures |Lexed(reader, lines).edges| == |CoreFlush(At(Views(lines), s + 1)).edges|
  {
    hide LexFrom, Lexed, CoreRun, AllBare, Complete, Before, LastEdgeEnd, IsListField, Put, ScalarValue, Trim, At, ViewOf,
         Step, Flush;
    var lex, vs, n := Lexed(reader, lines), Views(lines), |lines|;
    var x := Before(vs, s + 1);
    AtNext(vs, s);
    BeforeIsRun(vs, s + 1);
    AtIs(vs, s + 1);
    LexEnds(reader, lines);
    LaterEdges(vs, s + 1, n);
    LaterFlush(x, s + 1, Before(vs, n), n);
    CountBeyond(lex.edges, |x.edges|, s + 1, x.mode.InEdges? && x.mode.open.Some?);
  }

  /** No edge ends past `p`, so all but one that ends just there were read before it. */
  lemma CountBeyond(edges: seq<Placed>, n: nat, p: nat, open: bool)
    requires EndsAfter(edges, n, p, open) && forall k | 0 <= k < |edges| :: edges[k].end <= p
    ensures n <= |edges| <= n + if open then 1 else 0
    ensures |edges| > n ==> edges[n].end == p
  {
    hide EndsAfter;
    EndsAfterAt(edges, n, p, open, n);
    EndsAfterAt(edges, n, p, open, n + 1);
  }

  lemma EndsAfterAt(edges: seq<Placed>, n: nat, p: nat, open: bool, k: nat)
    requires EndsAfter(edges, n, p, open) && n <= k
    ensures n <= |edges| && (k < |edges| ==> edges[k].end > p || (k == n && open && edges[k].end == p))
  {
  }

  lemma PointAfterEdge(reader: Reader, lines: seq<Text>, p: nat)
    requires AllBare(reader, lines) && Lexed(reader, lines).faults == [] && p <= |lines|
    requires AllPlaced(Views(lines), Lexed(reader, lines).edges)
    requires LastEdgeEnd(Lexed(reader, lines).edges) == p
    ensures var vs := Views(lines);
            && (!(At(vs, p).mode.UnderEdges? && At(vs, p).mode.open.Some?) || p == |lines| || Closing(vs[p]))
            && |Lexed(reader, lines).edges| == |CoreFlush(At(vs, p)).edges|
  {
    hide LexFrom, Lexed, CoreRun, AllBare, Before, LastEdgeEnd, At, ViewOf, Flush, AllPlaced, CoreFlush, Closing, Complete;
    var lex, vs, n := Lexed(reader, lines), Views(lines), |lines|;
    var x := Before(vs, p);
    BeforeIsRun(vs, p);
    AtIs(vs, p);
    LexEnds(reader, lines);
    LaterEdges(vs, p, n);
    LaterFlush(x, p, Before(vs, n), n);
    var c := At(vs, p);
    FlushTwice(c);
    CountBeyond(lex.edges, |x.edges|, p, x.mode.InEdges? && x.mode.open.Some?);
    if c.mode.UnderEdges? && c.mode.open.Some? {
      OpenIsCounted(reader, lines, p);
      var k := |x.edges|;
      assert lex.edges[k].end == p;
      assert WellPlaced(vs, lex.edges, k) by { EachPlaced(vs, lex.edges, k); }
      OpenEndsHere(vs, lex.edges, k, p);
    }
  }

  lemma EachPlaced(vs: seq<View>, edges: seq<Placed>, k: nat)
    requires AllPlaced(vs, edges) && k < |edges|
    ensures WellPlaced(vs, edges, k)
  {
  }

  lemma OpenIsCounted(reader: Reader, lines: seq<Text>, p: nat)
    requires AllBare(reader, lines) && Lexed(reader, lines).faults == [] && p <= |lines|
    requires At(Views(lines), p).mode.UnderEdges? && At(Views(lines), p).mode.open.Some?
    ensures |Lexed(reader, lines).edges| > |At(Views(lines), p).edges|
  {
    hide LexFrom, Lexed, CoreRun, AllBare, CoreFlush, AllPlaced;
    var vs := Views(lines);
    FinalPlaced(reader, lines);
    AtIs(vs, p);
    assert vs == vs[..p] + vs[p..];
    RunConcat(START, vs[..p], vs[p..]);
    OpenComesOut(At(vs, p), vs[p..]);
  }

  /** The edge left open at `p` is the last one, and line `p` closes it. */
  lemma OpenEndsHere(vs: seq<View>, edges: seq<Placed>, k: nat, p: nat)
    requires k < |edges| && WellPlaced(vs, edges, k) && edges[k].end == p
    requires At(vs, p).mode.UnderEdges? && At(vs, p).mode.open.Some?
    ensures p == |vs| || Closing(vs[p])
    ensures CoreFlush(At(vs, p)).edges == At(vs, p).edges + [edges[k].props]
  {
    hide Complete, At, Closing;
    if edges[k].form.Flow? {
      AtNext(vs, p - 1);
      FlowLeavesNoneOpen(At(vs, p - 1), edges[k].props);
    }
  }

  lemma FlowLeavesNoneOpen(c: Core, props: Props)
    ensures var d := CoreStep(c, FlowLine(props)); !(d.mode.UnderEdges? && d.mode.open.Some?)
  {
    hide Complete;
  }

  lemma InsertedIsBare(reader: Reader, lines: seq<Text>, p: nat, line: Text)
    requires p <= |lines| && AllBare(reader, lines) && ViewOf(line).FlowLine?
    ensures AllBare(reader, Inserted(lines, p, line))
    ensures Views(Inserted(lines, p, line)) == Views(lines)[..p] + [ViewOf(line)] + Views(lines)[p..]
  {
    hide ViewOf;
    var all := Inserted(lines, p, line);
    forall i | 0 <= i < |all|
      ensures Bare(reader, all[i])
    {
      if i < p {
        assert all[i] == lines[i];
      } else if i > p {
        assert all[i] == lines[i - 1];
      }
    }
  }

  /** A flow line at the insertion point adds its edge, last. */
  lemma EdgeAddActs(reader: Reader, lines: seq<Text>, line: Text, props: Props)
    requires AllBare(reader, lines) && Lexed(reader, lines).faults == [] && ViewOf(line) == FlowLine(props)
    requires InsertPoint(Lexed(reader, lines).entries, Lexed(reader, lines).edges).Some?
    ensures var was := Lexed(reader, lines);
            var p := InsertPoint(was.entries, was.edges).value;
            && p <= |lines|
            && var now := Lexed(reader, Inserted(lines, p, line));
               now.faults == [] && now.fields == was.fields && PropsIn(now.edges) == PropsIn(was.edges) + [props]
  {
    hide LexFrom, Lexed, CoreFlush, CoreRun, AllBare, Closing, InsertPoint, ViewOf, AllPlaced;
    var was, vs := Lexed(reader, lines), Views(lines);
    var p := InsertPoint(was.entries, was.edges).value;
    PointIsAfterEdges(reader, lines);
    FinalPlaced(reader, lines);
    InsertedIsBare(reader, lines, p, line);
    LexedIsOutcome(reader, Inserted(lines, p, line));
    AtIs(vs, p);
    assert vs == vs[..p] + vs[p..];
    WithFlow(vs[..p], props, vs[p..]);
  }

  /** Without an `edges:` key the block is made at the end. */
  lemma EdgeBlockActs(reader: Reader, lines: seq<Text>, line: Text, props: Props)
    requires AllBare(reader, lines) && Lexed(reader, lines).faults == [] && ViewOf(line) == FlowLine(props)
    ensures var was, now := Lexed(reader, lines), Lexed(reader, lines + [EDGES + [COLON], line]);
            now.faults == [] && now.fields == was.fields && PropsIn(now.edges) == PropsIn(was.edges) + [props]
  {
    hide LexFrom, Lexed, CoreRun, ViewOf, AllPlaced, Complete, IsListField, Put, ScalarValue, Trim;
    var vs := Views(lines);
    var all := lines + [EDGES + [COLON], line];
    FinalPlaced(reader, lines);
    HeaderView();
    assert AllBare(reader, all);
    LexedIsOutcome(reader, all);
    var head, flow := KeyLine(EDGES, []), FlowLine(props);
    assert Views(all) == vs + [head] + [flow];
    RunConcat(START, vs + [head], [flow]);
    RunConcat(START, vs, [head]);
    OneStep(CoreRun(START, vs), head);
    OneStep(CoreStep(CoreRun(START, vs), head), flow);
  }

  lemma HeaderView()
    ensures ViewOf(EDGES + [COLON]) == KeyLine(EDGES, []) && Trim([]) == []
  {
    hide InlineList, KeyValue;
    assert IsKey(EDGES);
    BareKeyReads(EDGES);
    EmptyReadsBack();
  }

  /** A flow line put in anywhere leaves a fault a fault. */
  lemma FaultOutlivesFlow(a: seq<View>, p: Props, b: seq<View>)
    requires Sane(b) && Outcome(a + b).faulty
    ensures Outcome(a + [FlowLine(p)] + b).faulty
  {
    hide CoreStep, CoreFlush, CoreRun, Sane;
    var c := CoreRun(START, a);
    RunConcat(START, a + [FlowLine(p)], b);
    RunConcat(START, a, [FlowLine(p)]);
    RunConcat(START, a, b);
    OneStep(c, FlowLine(p));
    EdgeApart(c, p, b);
    if !CoreFlush(CoreRun(CoreFlush(c), b)).faulty {
      ClosedEarly(c, b);
    }
  }

  lemma AddedToFault(reader: Reader, lines: seq<Text>, p: nat, line: Text)
    requires p <= |lines| && AllBare(reader, lines) && ViewOf(line).FlowLine? && Lexed(reader, lines).faults != []
    ensures AllBare(reader, Inserted(lines, p, line)) && Lexed(reader, Inserted(lines, p, line)).faults != []
  {
    hide LexFrom, Lexed, CoreFlush, CoreRun, AllBare, ViewOf, Sane;
    var vs := Views(lines);
    InsertedIsBare(reader, lines, p, line);
    LexedIsOutcome(reader, lines);
    LexedIsOutcome(reader, Inserted(lines, p, line));
    LinesAreSane(lines);
    SaneTail(vs, p);
    assert vs == vs[..p] + vs[p..];
    FaultOutlivesFlow(vs[..p], ViewOf(line).props, vs[p..]);
  }

  lemma BlockAddedToFault(reader: Reader, lines: seq<Text>, line: Text)
    requires AllBare(reader, lines) && ViewOf(line).FlowLine? && Lexed(reader, lines).faults != []
    ensures Lexed(reader, lines + [EDGES + [COLON], line]).faults != []
  {
    hide LexFrom, Lexed, CoreRun, CoreFlush, CoreStep, ViewOf;
    var vs := Views(lines);
    var all := lines + [EDGES + [COLON], line];
    HeaderView();
    assert AllBare(reader, all);
    LexedIsOutcome(reader, lines);
    LexedIsOutcome(reader, all);
    var head, flow := KeyLine(EDGES, []), ViewOf(line);
    assert Views(all) == vs + [head, flow];
    RunConcat(START, vs, [head, flow]);
    ClosedNext(CoreRun(START, vs), [head, flow]);
    FaultStaysInRun(CoreFlush(CoreRun(START, vs)), [head, flow]);
  }

  /** The insertion point is within the lines. */
  lemma PointInBounds(reader: Reader, lines: seq<Text>)
    requires AllBare(reader, lines) && LastEdgesKey(Lexed(reader, lines).entries).Some?
    ensures LastEdgesKey(Lexed(reader, lines).entries).value < |lines| && LastEdgeEnd(Lexed(reader, lines).edges) <= |lines|
  {
    hide LexFrom, Lexed, AllBare, Before, Flush, HeadsPlaced, LastEdgesKey, LastEdgeEnd;
    var vs, n := Views(lines), |lines|;
    LexEnds(reader, lines);
    FlushKeepsEntries(Before(vs, n), n);
    HeadsStand(vs, n);
    LastKeyIsHead(vs, Lexed(reader, lines).entries, n);
    LexedInBounds(reader, lines);
  }

  /** Append an edge of bare tokens, where no header carries a value; a fault stays one. */
  method AppendEdge(reader: Reader, lines: seq<Text>, kind: Text, to: Text, attrs: Props) returns (edited: seq<Text>)
    requires AllBare(reader, lines)
    requires IsToken(kind) && IsToken(to) && FlowAttrsFit(attrs)
    ensures var was, now := Lexed(reader, lines), Lexed(reader, edited);
            && (now.faults == [] <==> was.faults == [])
            && (now.faults == [] ==>
                  && now.fields == was.fields
                  && PropsIn(now.edges) == PropsIn(was.edges) + [PutAll([(TYPE, kind), (TO, to)], attrs)])
  {
    hide Lexed, AllBare, FlowText, ViewOf, IsToken, PutAll, LastEdgesKey, LastEdgeEnd, FlowAttrsFit;
    var lex := LexFrontmatter(reader, lines);
    var line := FlowText(kind, to, attrs);
    FlowReads(kind, to, attrs);
    var key := LastEdgesKey(lex.entries);
    if key.None? {
      if lex.faults == [] {
        EdgeBlockActs(reader, lines, line, PutAll([(TYPE, kind), (TO, to)], attrs));
      } else {
        BlockAddedToFault(reader, lines, line);
      }
      edited := lines + [EDGES + [COLON], line];
    } else {
      PointInBounds(reader, lines);
      var lastEdgeEnd := LastEdgeEnd(lex.edges);
      var p := if lastEdgeEnd > key.value then lastEdgeEnd else key.value + 1;
      if lex.faults == [] {
        EdgeAddActs(reader, lines, line, PutAll([(TYPE, kind), (TO, to)], attrs));
      } else {
        AddedToFault(reader, lines, p, line);
      }
      edited := lines[..p] + [line] + lines[p..];
    }
  }
}
