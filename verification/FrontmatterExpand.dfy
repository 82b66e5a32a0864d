/** Edge editing over inline lists: a header whose value reads is first rewritten to block form, and exactly when
    that keeps its edges (`lib/kernel/frontmatter.js`). */
module FrontmatterExpand {
  import opened Common
  import opened ContentText
  import opened FrontmatterScalar
  import opened FrontmatterLines
  import opened FrontmatterLexer
  import opened FrontmatterRoundTrip
  import opened FrontmatterCore
  import opened FrontmatterCut
  import opened FrontmatterRewrite
  import opened FrontmatterEdit

  // ---------- an inline edge in the writer's terms ----------

  /** The properties but type and target, in their order. */
  function Attributes(props: Props): (r: Props)
    ensures forall k | 0 <= k < |r| :: r[k].0 != TYPE && r[k].0 != TO && r[k] in props
  {
    if props == [] then []
    else (if props[0].0 == TYPE || props[0].0 == TO then [] else [props[0]]) + Attributes(props[1..])
  }

  function EdgeOf(props: Props): Edge {
    Edge(Lookup(props, TYPE).GetOr([]), Lookup(props, TO).GetOr([]), Attributes(props))
  }

  function EdgesOf(es: seq<Props>): (r: seq<Edge>)
    ensures |r| == |es| && forall k | 0 <= k < |r| :: r[k] == EdgeOf(es[k])
  {
    seq(|es|, k requires 0 <= k < |es| => EdgeOf(es[k]))
  }

  /** What the reader lets through: keys of the block grammar, each once, `target` read as `to`, and a type and a target
      that are not empty. */
  predicate Shaped(props: Props) {
    && DistinctKeys(props) && Complete(props)
    && forall i | 0 <= i < |props| :: IsKey(props[i].0) && props[i].0 != TARGET && IsText(props[i].1)
  }

  lemma {:induction false} AttributesLookUp(props: Props, k: Text)
    ensures Lookup<Text>(Attributes(props), k) == if k == TYPE || k == TO then None else Lookup<Text>(props, k)
  {
    if props != [] {
      AttributesLookUp(props[1..], k);
      var rest := Attributes(props[1..]);
      if props[0].0 == TYPE || props[0].0 == TO {
        assert [] + rest == rest;
      } else {
        assert ([props[0]] + rest)[1..] == rest;
      }
    }
  }

  lemma {:induction false} AttributesDistinct(props: Props)
    requires DistinctKeys(props)
    ensures DistinctKeys(Attributes(props))
  {
    if props != [] {
      AttributesDistinct(props[1..]);
      var rest := Attributes(props[1..]);
      if props[0].0 == TYPE || props[0].0 == TO {
        assert Attributes(props) == rest;
      } else {
        assert Attributes(props) == [props[0]] + rest;
        forall i | 0 <= i < |rest|
          ensures props[0].0 != rest[i].0
        {
          var j :| 0 <= j < |props[1..]| && props[1..][j] == rest[i];
          assert props[j + 1] == rest[i];
        }
      }
    }
  }

  lemma LookedUpIsText(props: Props, k: Text)
    requires Shaped(props)
    ensures IsText(Lookup<Text>(props, k).GetOr([]))
  {
    hide IsKey, Complete;
    if Lookup<Text>(props, k).Some? {
      LookupFrom(props, k);
    }
  }

  lemma ShapedIsWellRead(props: Props)
    requires Shaped(props)
    ensures WellRead(EdgeOf(props))
  {
    hide IsKey, IsText, Attributes;
    LookedUpIsText(props, TYPE);
    LookedUpIsText(props, TO);
    AttributesDistinct(props);
    var attrs := Attributes(props);
    forall i | 0 <= i < |attrs|
      ensures IsKey(attrs[i].0) && attrs[i].0 != TYPE && attrs[i].0 != TO && attrs[i].0 != TARGET && IsText(attrs[i].1)
    {
      assert attrs[i] in props;
    }
  }

  /** Type and target first: the same properties. */
  lemma ReorderedIsSame(props: Props)
    requires Complete(props)
    ensures SameProps(PropsOf(EdgeOf(props)), props)
  {
    hide Attributes;
    var e := EdgeOf(props);
    var p := PropsOf(e);
    forall k: Text
      ensures Lookup<Text>(p, k) == Lookup<Text>(props, k)
    {
      AttributesLookUp(props, k);
      assert p[1..][1..] == e.attrs;
      assert p[0] == (TYPE, e.kind) && p[1..][0] == (TO, e.to);
    }
  }

  // ---------- the edges once written out ----------

  /** What one edge is read as once inline lists are written out. */
  function Written(e: Placed): seq<Props> {
    if e.form.Inline? then Rewritten(EdgeOf(e.props)).edges else [e.props]
  }

  function AsWritten(edges: seq<Placed>): seq<Props> {
    if edges == [] then [] else Written(edges[0]) + AsWritten(edges[1..])
  }

  /** Written out, the edge is a fault. */
  predicate Breaks(e: Placed) {
    e.form.Inline? && Rewritten(EdgeOf(e.props)).faulty
  }

  predicate Broken(edges: seq<Placed>) {
    exists k :: 0 <= k < |edges| && Breaks(edges[k])
  }

  predicate AllShaped(edges: seq<Placed>) {
    forall k | 0 <= k < |edges| && edges[k].form.Inline? :: Shaped(edges[k].props)
  }

  /** Every inline edge can be written. */
  predicate AllSurvive(edges: seq<Placed>) {
    forall k | 0 <= k < |edges| && edges[k].form.Inline? :: Survives(EdgeOf(edges[k].props))
  }

  lemma {:induction false} WrittenJoins(a: seq<Placed>, b: seq<Placed>)
    ensures AsWritten(a + b) == AsWritten(a) + AsWritten(b)
  {
    hide Written;
    if a == [] {
      assert a + b == b;
    } else {
      assert (a + b)[0] == a[0] && (a + b)[1..] == a[1..] + b;
      WrittenJoins(a[1..], b);
    }
  }

  lemma BreaksJoin(a: seq<Placed>, b: seq<Placed>)
    ensures Broken(a + b) <==> Broken(a) || Broken(b)
  {
    hide Breaks;
    if k :| 0 <= k < |a| && Breaks(a[k]) {
      assert (a + b)[k] == a[k];
    }
    if k :| 0 <= k < |b| && Breaks(b[k]) {
      assert (a + b)[|a| + k] == b[k];
    }
  }

  lemma {:induction false} NoneInline(edges: seq<Placed>)
    requires forall k | 0 <= k < |edges| :: !edges[k].form.Inline?
    ensures AsWritten(edges) == PropsIn(edges) && !Broken(edges)
  {
    hide Rewritten;
    if edges != [] {
      NoneInline(edges[1..]);
      assert PropsIn(edges) == [edges[0].props] + PropsIn(edges[1..]);
    }
  }

  lemma {:induction false} AllInline(es: seq<Props>, start: nat, end: nat)
    ensures AsWritten(PlaceAll(es, start, end)) == AllRewritten(EdgesOf(es))
    ensures Broken(PlaceAll(es, start, end)) <==> AnyFault(EdgesOf(es))
  {
    hide Rewritten, EdgeOf;
    var placed := PlaceAll(es, start, end);
    if es != [] {
      AllInline(es[1..], start, end);
      assert placed[1..] == PlaceAll(es[1..], start, end) && EdgesOf(es)[1..] == EdgesOf(es[1..]);
    }
    if k :| 0 <= k < |es| && Breaks(placed[k]) {
      assert Rewritten(EdgesOf(es)[k]).faulty;
    }
    if k :| 0 <= k < |es| && Rewritten(EdgesOf(es)[k]).faulty {
      assert Breaks(placed[k]);
    }
  }

  /** The lines from `i` on, each header with a value rewritten to block form. */
  function Expanded(reader: Reader, lines: seq<Text>, i: nat): seq<Text>
    requires i <= |lines|
    decreases |lines| - i
  {
    if i == |lines| then []
    else
      match InlineAt(reader, lines, i)
      case Reads(es, span) =>
        [EDGES + [COLON]] + AllEdgeLines(EdgesOf(es)) + Expanded(reader, lines, i + SpanWithin(span, |lines| - i))
      case _ => [lines[i]] + Expanded(reader, lines, i + 1)
  }

  // ---------- reading the original and the rewritten lines side by side ----------

  /** What the rewritten lines should have come to by now. */
  function Due(x: Lex): Core {
    CoreOf(x).(edges := AsWritten(x.edges), faulty := Broken(x.edges))
  }

  /** The rewritten lines may have one block edge still open that the inline list had closed; once a rewritten edge is a
      fault, so are they. */
  predicate Agree(c: Core, d: Core) {
    if c.faulty then d.faulty || (c.mode == UnderEdges(None) && d.mode.UnderEdges? && CoreFlush(d).faulty)
    else c == d || c == CoreFlush(d)
  }

  /** Other edges and faults before it change nothing of what a line does. */
  lemma StepApart(c: Core, d: Core, v: View)
    requires c == Core(d.fields, [], false, d.mode)
    ensures var s, t := CoreStep(c, v), CoreStep(d, v);
            t.fields == s.fields && t.mode == s.mode && t.edges == d.edges + s.edges && t.faulty == (d.faulty || s.faulty)
    ensures var s, t := CoreFlush(c), CoreFlush(d);
            t.fields == s.fields && t.mode == s.mode && t.edges == d.edges + s.edges && t.faulty == (d.faulty || s.faulty)
  {
    hide CoreStep, CoreFlush;
    StepsAlike(d.edges, d.faulty, d, c, v);
    FlushesAlike(d.edges, d.faulty, d, c);
    FieldsApart(c, d, v);
    FlushKeepsFields(c);
    FlushKeepsFields(d);
  }

  lemma FieldsApart(c: Core, d: Core, v: View)
    requires c.fields == d.fields && c.mode == d.mode
    ensures CoreStep(c, v).fields == CoreStep(d, v).fields
  {
    hide Complete, QuoteOpen, ScalarValue, Trim, Put, IsListField, TextOf, ItemsOf, CoreFlush;
    FlushKeepsFields(c);
    FlushKeepsFields(d);
  }

  /** What a line adds, it adds to both. */
  lemma DueGrows(x: Lex, y: Lex, d: Core)
    requires |x.edges| <= |y.edges| && y.edges[..|x.edges|] == x.edges
    requires forall k | |x.edges| <= k < |y.edges| :: !y.edges[k].form.Inline?
    requires d.fields == y.fields && d.mode == ModeCore(y.mode) && PropsIn(y.edges) == PropsIn(x.edges) + d.edges
    ensures Due(y) == d.(edges := AsWritten(x.edges) + d.edges, faulty := Broken(x.edges))
  {
    hide AsWritten, Broken, ModeCore;
    var n := |x.edges|;
    var more := y.edges[n..];
    assert y.edges == x.edges + more;
    assert forall k | 0 <= k < |more| :: more[k] == y.edges[n + k];
    WrittenJoins(x.edges, more);
    BreaksJoin(x.edges, more);
    NoneInline(more);
    assert PropsIn(more) == d.edges by {
      assert forall k | 0 <= k < |more| :: PropsIn(more)[k] == PropsIn(y.edges)[n + k];
    }
  }

  lemma StepIsDue(x: Lex, i: nat, v: View)
    requires Step(x, i, v).faults == []
    ensures Due(Step(x, i, v)) == CoreStep(Due(x), v)
  {
    hide Step, CoreStep, CoreFlush, Broken, AsWritten;
    var y := Step(x, i, v);
    StepInline(x, i, v);
    StepIsCore(x, i, v);
    var bare := Core(x.fields, [], false, ModeCore(x.mode));
    StepApart(bare, CoreOf(x), v);
    StepApart(bare, Due(x), v);
    DueGrows(x, y, CoreStep(bare, v));
  }

  lemma FlushIsDue(x: Lex, i: nat)
    requires Flush(x, i).faults == []
    ensures Due(Flush(x, i)) == CoreFlush(Due(x))
  {
    hide Flush, CoreStep, CoreFlush, Broken, AsWritten;
    var y := Flush(x, i);
    FlushedInline(x, i);
    FlushIsCore(x, i);
    var bare := Core(x.fields, [], false, ModeCore(x.mode));
    StepApart(bare, CoreOf(x), FlowLine([]));
    StepApart(bare, Due(x), FlowLine([]));
    DueGrows(x, y, CoreFlush(bare));
  }

  lemma FlushedInline(x: Lex, i: nat)
    ensures var y := Flush(x, i);
            |y.edges| >= |x.edges| && y.edges[..|x.edges|] == x.edges
            && forall k | |x.edges| <= k < |y.edges| :: !y.edges[k].form.Inline?
  {
    hide Complete;
  }

  lemma StepInline(x: Lex, i: nat, v: View)
    ensures var y := Step(x, i, v);
            |y.edges| >= |x.edges| && y.edges[..|x.edges|] == x.edges
            && forall k | |x.edges| <= k < |y.edges| :: !y.edges[k].form.Inline?
  {
    hide Complete, QuoteOpen, ScalarValue, Trim, Put, IsListField, TextOf, ItemsOf, ExtendTo;
    FlushedInline(x, i);
  }

  /** A line that is no fault in the original keeps the two in agreement. */
  lemma AgreeStep(x: Core, c: Core, d: Core, v: View)
    requires Agree(c, d) && x.mode == c.mode && !CoreStep(x, v).faulty && !(v.Other? && v.cont.Some? && v.blank)
    ensures Agree(CoreStep(c, v), CoreStep(d, v))
  {
    hide CoreStep, CoreFlush;
    FlushTwice(d);
    if c != d && d.mode.UnderEdges? && d.mode.open.Some? && !d.faulty {
      FlushKeepsUnder(d);
      if Closing(v) {
        ClosingFlushes(d, v);
        if c.faulty {
          FaultStays(CoreFlush(d), v);
        }
      } else {
        LineIsBlank(x, v);
        BlankChangesNothing(d, v);
        BlankChangesNothing(c, v);
      }
    }
    if c.faulty {
      FaultStays(c, v);
    }
    if d.faulty {
      FaultStays(d, v);
    }
  }

  lemma LineIsBlank(x: Core, v: View)
    requires x.mode == UnderEdges(None) && !Closing(v) && !CoreStep(x, v).faulty
    ensures v.blank
  {
  }

  lemma BlankChangesNothing(c: Core, v: View)
    requires c.mode.UnderEdges? && !Closing(v) && v.blank && v.cont.None?
    ensures CoreStep(c, v) == c
  {
  }

  lemma AgreeHeader(c: Core, d: Core, raw: Text)
    requires Agree(c, d)
    ensures var y, z := CoreStep(c, KeyLine(EDGES, raw)), CoreStep(d, KeyLine(EDGES, []));
            && y.mode == UnderEdges(None) && z.mode == UnderEdges(None)
            && (if c.faulty then z.faulty else y == z)
  {
    hide Complete;
  }

  lemma AgreeEnd(c: Core, d: Core)
    requires Agree(c, d)
    ensures if c.faulty then CoreFlush(d).faulty else CoreFlush(c) == CoreFlush(d)
  {
    hide CoreFlush;
    FlushTwice(d);
    if d.faulty {
      FaultStays(d, FlowLine([]));
    }
  }

  // ---------- turn by turn ----------

  lemma NoValueTurn(reader: Reader, lines: seq<Text>, i: nat, x: Lex)
    requires i < |lines| && InlineAt(reader, lines, i).NoValue?
    ensures Turn(reader, lines, i, x) == (Step(x, i, ViewOf(lines[i])), i + 1)
  {
    hide InlineAt, Step, ViewOf;
  }

  /** A header with a value: the header's own step, then the edges of the value. */
  lemma InlineTurn(reader: Reader, lines: seq<Text>, i: nat, x: Lex)
    requires i < |lines| && InlineAt(reader, lines, i).Reads?
    ensures ViewOf(lines[i]).KeyLine? && ViewOf(lines[i]).key == EDGES
    ensures var inline := InlineAt(reader, lines, i);
            var z, (y, j) := Step(x, i, ViewOf(lines[i])), Turn(reader, lines, i, x);
            j == i + SpanWithin(inline.span, |lines| - i)
            && y.edges == z.edges + PlaceAll(inline.edges, i, j) && y.fields == z.fields && y.mode == z.mode && y.faults == z.faults
  {
    hide Step, ViewOf, Trim;
  }

  lemma RefusedTurn(reader: Reader, lines: seq<Text>, i: nat, x: Lex)
    requires i < |lines| && InlineAt(reader, lines, i).Refused?
    ensures Turn(reader, lines, i, x).0.faults != []
  {
    hide Step, ViewOf, Trim;
  }

  /** Reading on keeps faults and edges. */
  lemma {:induction false} ReadingKeeps(reader: Reader, lines: seq<Text>, i: nat, x: Lex)
    requires i <= |lines|
    ensures var y := LexFrom(reader, lines, i, x);
            (y.faults == [] ==> x.faults == []) && |x.edges| <= |y.edges| && y.edges[..|x.edges|] == x.edges
    decreases |lines| - i
  {
    hide Turn, Flush, Step;
    if i == |lines| {
      FlushIsCore(x, i);
      FlushedInline(x, i);
      if x.faults != [] {
        FaultStays(CoreOf(x), FlowLine([]));
      }
    } else {
      TurnKeeps(reader, lines, i, x);
      var (y, j) := Turn(reader, lines, i, x);
      ReadingKeeps(reader, lines, j, y);
      var z := LexFrom(reader, lines, j, y);
      assert z.edges[..|x.edges|] == z.edges[..|y.edges|][..|x.edges|];
    }
  }

  lemma TurnKeeps(reader: Reader, lines: seq<Text>, i: nat, x: Lex)
    requires i < |lines|
    ensures var y := Turn(reader, lines, i, x).0;
            (y.faults == [] ==> x.faults == []) && |x.edges| <= |y.edges| && y.edges[..|x.edges|] == x.edges
    ensures Step(x, i, ViewOf(lines[i])).faults != [] ==> Turn(reader, lines, i, x).0.faults != []
  {
    hide Step, InlineAt, ViewOf, CoreStep;
    StepIsCore(x, i, ViewOf(lines[i]));
    StepInline(x, i, ViewOf(lines[i]));
    if x.faults != [] {
      FaultStays(CoreOf(x), ViewOf(lines[i]));
    }
  }

  /** The rewritten lines come to what is due, or to a fault if a rewritten edge is one. */
  predicate ComesTo(out: Core, z: Lex) {
    && (out.faulty <==> Broken(z.edges))
    && (!out.faulty ==> out == Due(z))
  }

  lemma {:induction false} ExpandedRuns(reader: Reader, lines: seq<Text>, i: nat, x: Lex, d: Core)
    requires i <= |lines| && Agree(Due(x), d)
    requires LexFrom(reader, lines, i, x).faults == [] && AllShaped(LexFrom(reader, lines, i, x).edges)
    ensures ComesTo(CoreFlush(CoreRun(d, Views(Expanded(reader, lines, i)))), LexFrom(reader, lines, i, x))
    decreases |lines| - i
  {
    hide Turn, Flush, Step, CoreFlush, CoreStep, ViewOf, AllShaped, Agree, Due, InlineAt, AllEdgeLines, CoreRun, ComesTo;
    if i == |lines| {
      AtEnd(reader, lines, x);
      EndsDue(x, i, d);
      NoViews(d);
    } else if InlineAt(reader, lines, i).NoValue? {
      PlainLineRuns(reader, lines, i, x, d);
    } else if InlineAt(reader, lines, i).Refused? {
      RefusedTurn(reader, lines, i, x);
      var (y, j) := Turn(reader, lines, i, x);
      TurnOf(reader, lines, i, x);
      ReadingKeeps(reader, lines, j, y);
      assert false;
    } else {
      InlineRuns(reader, lines, i, x, d);
    }
  }

  lemma EndsDue(x: Lex, i: nat, d: Core)
    requires Agree(Due(x), d) && Flush(x, i).faults == []
    ensures ComesTo(CoreFlush(d), Flush(x, i))
  {
    hide CoreFlush, Flush, Agree, Broken, AsWritten;
    FlushIsDue(x, i);
    AgreeEnd(Due(x), d);
    FlushIsCore(x, i);
    FlushKeepsFault(Due(x), CoreOf(x));
  }

  lemma FlushKeepsFault(c: Core, o: Core)
    requires c.mode == o.mode && !CoreFlush(o).faulty
    ensures CoreFlush(c).faulty == c.faulty
  {
    hide Complete;
  }

  lemma NoViews(d: Core)
    ensures CoreRun(d, Views([])) == d
  {
  }

  lemma {:induction false} PlainLineRuns(reader: Reader, lines: seq<Text>, i: nat, x: Lex, d: Core)
    requires i < |lines| && Agree(Due(x), d) && InlineAt(reader, lines, i).NoValue?
    requires LexFrom(reader, lines, i, x).faults == [] && AllShaped(LexFrom(reader, lines, i, x).edges)
    ensures ComesTo(CoreFlush(CoreRun(d, Views(Expanded(reader, lines, i)))), LexFrom(reader, lines, i, x))
    decreases |lines| - i, 0
  {
    hide *;
    var v := ViewOf(lines[i]);
    var y := Step(x, i, v);
    NoValueTurn(reader, lines, i, x);
    TurnOf(reader, lines, i, x);
    ReadingKeeps(reader, lines, i + 1, y);
    StepIsDue(x, i, v);
    StepIsCore(x, i, v);
    NoFaultInCore(x, y);
    LineIsSane(lines[i]);
    AgreeStep(CoreOf(x), Due(x), d, v);
    PlainLineStays(reader, lines, i);
    ExpandedRuns(reader, lines, i + 1, y, CoreStep(d, v));
    OneLineRuns(d, lines[i], Expanded(reader, lines, i + 1));
  }

  lemma NoFaultInCore(x: Lex, y: Lex)
    ensures y.faults == [] <==> !CoreOf(y).faulty
    ensures CoreOf(x).mode == Due(x).mode
  {
  }

  lemma PlainLineStays(reader: Reader, lines: seq<Text>, i: nat)
    requires i < |lines| && InlineAt(reader, lines, i).NoValue?
    ensures Expanded(reader, lines, i) == [lines[i]] + Expanded(reader, lines, i + 1)
  {
    hide InlineAt, AllEdgeLines;
  }

  lemma OneLineRuns(d: Core, line: Text, rest: seq<Text>)
    ensures CoreRun(d, Views([line] + rest)) == CoreRun(CoreStep(d, ViewOf(line)), Views(rest))
  {
    hide CoreStep, CoreRun, ViewOf;
    var v := ViewOf(line);
    assert Views([line] + rest) == [v] + Views(rest);
    RunConcat(d, [v], Views(rest));
    OneStep(d, v);
  }

  lemma LineIsSane(line: Text)
    ensures var v := ViewOf(line); !(v.Other? && v.cont.Some? && v.blank)
  {
    LinesAreSane([line]);
    assert Views([line])[0] == ViewOf(line);
  }

  lemma {:induction false} InlineRuns(reader: Reader, lines: seq<Text>, i: nat, x: Lex, d: Core)
    requires i < |lines| && Agree(Due(x), d) && InlineAt(reader, lines, i).Reads?
    requires LexFrom(reader, lines, i, x).faults == [] && AllShaped(LexFrom(reader, lines, i, x).edges)
    ensures ComesTo(CoreFlush(CoreRun(d, Views(Expanded(reader, lines, i)))), LexFrom(reader, lines, i, x))
    decreases |lines| - i, 0
  {
    hide *;
    var es := InlineAt(reader, lines, i).edges;
    var (y, j) := Turn(reader, lines, i, x);
    TurnOf(reader, lines, i, x);
    ReadingKeeps(reader, lines, j, y);
    InlineTurn(reader, lines, i, x);
    var z := Step(x, i, ViewOf(lines[i]));
    ShapedSoFar(y.edges, LexFrom(reader, lines, j, y).edges);
    ValueRuns(x, i, j, ViewOf(lines[i]), es, y, d);
    var head := CoreStep(d, KeyLine(EDGES, []));
    var e := CoreRun(head, Views(AllEdgeLines(EdgesOf(es))));
    ExpandedRuns(reader, lines, j, y, e);
    HeaderThenEdges(d, AllEdgeLines(EdgesOf(es)), Expanded(reader, lines, j));
    HeaderIsRewritten(reader, lines, i, j);
  }

  lemma HeaderIsRewritten(reader: Reader, lines: seq<Text>, i: nat, j: nat)
    requires i < |lines| && InlineAt(reader, lines, i).Reads?
    requires j == i + SpanWithin(InlineAt(reader, lines, i).span, |lines| - i)
    ensures Expanded(reader, lines, i)
         == [EDGES + [COLON]] + AllEdgeLines(EdgesOf(InlineAt(reader, lines, i).edges)) + Expanded(reader, lines, j)
  {
    hide InlineAt, AllEdgeLines;
  }

  lemma HeaderThenEdges(d: Core, block: seq<Text>, rest: seq<Text>)
    ensures CoreRun(d, Views([EDGES + [COLON]] + block + rest))
         == CoreRun(CoreRun(CoreStep(d, KeyLine(EDGES, [])), Views(block)), Views(rest))
  {
    hide CoreStep, CoreRun, ViewOf;
    HeaderView();
    var head := KeyLine(EDGES, []);
    assert Views([EDGES + [COLON]] + block + rest) == [head] + Views(block) + Views(rest);
    RunConcat(d, [head] + Views(block), Views(rest));
    RunConcat(d, [head], Views(block));
    OneStep(d, head);
  }

  lemma ShapedSoFar(some: seq<Placed>, all: seq<Placed>)
    requires AllShaped(all) && |some| <= |all| && all[..|some|] == some
    ensures AllShaped(some)
  {
    hide Shaped;
    assert forall k | 0 <= k < |some| :: some[k] == all[k];
  }

  lemma ShapedAreWellRead(front: seq<Placed>, es: seq<Props>, i: nat, j: nat)
    requires AllShaped(front + PlaceAll(es, i, j))
    ensures forall k | 0 <= k < |es| :: WellRead(EdgesOf(es)[k])
  {
    hide Shaped, WellRead, EdgeOf;
    var all := front + PlaceAll(es, i, j);
    forall k | 0 <= k < |es|
      ensures WellRead(EdgesOf(es)[k])
    {
      assert all[|front| + k] == PlaceAll(es, i, j)[k];
      ShapedIsWellRead(es[k]);
    }
  }

  /** The rewritten value keeps the two in agreement, once the original has taken in its edges. */
  lemma {:induction false} ValueRuns(x: Lex, i: nat, j: nat, v: View, es: seq<Props>, y: Lex, d: Core)
    requires Agree(Due(x), d) && v.KeyLine? && v.key == EDGES
    requires var z := Step(x, i, v);
             && y.edges == z.edges + PlaceAll(es, i, j) && y.fields == z.fields && y.mode == z.mode && y.faults == z.faults
    requires y.faults == [] && AllShaped(y.edges)
    ensures Agree(Due(y), CoreRun(CoreStep(d, KeyLine(EDGES, [])), Views(AllEdgeLines(EdgesOf(es)))))
  {
    hide *;
    var z, edges := Step(x, i, v), EdgesOf(es);
    var lines := AllEdgeLines(edges);
    ShapedAreWellRead(z.edges, es, i, j);
    StepIsDue(x, i, v);
    AgreeHeader(Due(x), d, v.raw);
    var head := CoreStep(d, KeyLine(EDGES, []));
    EdgeLinesIndented(edges);
    IndentedIsLoose(lines);
    LooseStaysUnder(head, Views(lines));
    LinesComeTo(edges);
    RunAdds(head, Views(lines));
    DueFault(x, z, i, v);
    DueJoins(z, y, es, i, j);
    var e := CoreRun(head, Views(lines));
    FlushKeepsUnder(e);
    ValueAgrees(Due(z), head, e, Due(y), Added(UnderEdges(None), Views(lines)), AllRewritten(edges), AnyFault(edges));
  }

  lemma DueFault(x: Lex, z: Lex, i: nat, v: View)
    requires z == Step(x, i, v)
    ensures Due(z).faulty <==> Due(x).faulty
  {
    hide Step, Breaks;
    StepInline(x, i, v);
    var n := |x.edges|;
    assert forall k | 0 <= k < n :: z.edges[k] == z.edges[..n][k];
    if k :| 0 <= k < |z.edges| && Breaks(z.edges[k]) {
      NotInlineIsFine(z.edges[k]);
    }
    if k :| 0 <= k < |x.edges| && Breaks(x.edges[k]) {
      assert Breaks(z.edges[k]);
    }
  }

  lemma NotInlineIsFine(e: Placed)
    ensures Breaks(e) ==> e.form.Inline?
  {
    hide Rewritten;
  }

  lemma DueJoins(z: Lex, y: Lex, es: seq<Props>, i: nat, j: nat)
    requires y.edges == z.edges + PlaceAll(es, i, j) && y.fields == z.fields && y.mode == z.mode
    ensures Due(y) == Due(z).(edges := Due(z).edges + AllRewritten(EdgesOf(es)), faulty := Due(z).faulty || AnyFault(EdgesOf(es)))
  {
    hide AsWritten, Broken, AnyFault, AllRewritten;
    AllInline(es, i, j);
    WrittenJoins(z.edges, PlaceAll(es, i, j));
    BreaksJoin(z.edges, PlaceAll(es, i, j));
  }

  /** `z` and `head` right behind the header, `y` and `e` behind the value. */
  lemma ValueAgrees(z: Core, head: Core, e: Core, y: Core, a: Core, edges: seq<Props>, bad: bool)
    requires z.mode == UnderEdges(None) && (if z.faulty then head.faulty else z == head)
    requires e.mode.UnderEdges? && e.fields == head.fields
    requires CoreFlush(e).mode == UnderEdges(None) && CoreFlush(e).edges == head.edges + a.edges
    requires CoreFlush(e).faulty == (head.faulty || a.faulty)
    requires (a.faulty <==> bad) && (!a.faulty ==> a.edges == edges)
    requires y == z.(edges := z.edges + edges, faulty := z.faulty || bad)
    ensures Agree(y, e)
  {
    hide Complete;
  }

  // ---------- the rewritten block ----------

  lemma IndentedIsBare(reader: Reader, lines: seq<Text>)
    requires AllIndented(lines)
    ensures AllBare(reader, lines)
  {
    hide KeyValue, InlineList, FlowEdge;
    forall i | 0 <= i < |lines|
      ensures Bare(reader, lines[i])
    {
      IndentedIsNoKey(lines[i]);
    }
  }

  lemma {:induction false} ExpandedIsBare(reader: Reader, lines: seq<Text>, i: nat, x: Lex)
    requires i <= |lines| && Steady(reader) && LexFrom(reader, lines, i, x).faults == []
    ensures AllBare(reader, Expanded(reader, lines, i))
    decreases |lines| - i
  {
    hide AllEdgeLines, Steady, ViewOf, LexFrom, Turn;
    if i < |lines| {
      var (y, j) := Turn(reader, lines, i, x);
      TurnOf(reader, lines, i, x);
      match InlineAt(reader, lines, i)
      case NoValue =>
        NoValueTurn(reader, lines, i, x);
        ExpandedIsBare(reader, lines, i + 1, y);
        NoValueIsBare(reader, lines, i);
      case Reads(es, span) =>
        InlineTurn(reader, lines, i, x);
        ExpandedIsBare(reader, lines, j, y);
        EdgeLinesIndented(EdgesOf(es));
        IndentedIsBare(reader, AllEdgeLines(EdgesOf(es)));
        HeaderView();
      case Refused(_) =>
        RefusedTurn(reader, lines, i, x);
        ReadingKeeps(reader, lines, j, y);
        assert false;
    }
  }

  lemma NoValueIsBare(reader: Reader, lines: seq<Text>, i: nat)
    requires i < |lines| && Steady(reader) && InlineAt(reader, lines, i).NoValue?
    ensures Bare(reader, lines[i])
  {
    hide ViewOf, Trim;
    assert lines[i..] == [lines[i]] + lines[i + 1..];
  }

  /** Rewriting the inline lists of a block without faults leaves no header with a value. It is a fault if and only if a
      written edge is one; if not, the fields stay and the edges are those written, each in its place. */
  lemma ExpansionComesTo(reader: Reader, lines: seq<Text>)
    requires Steady(reader) && Lexed(reader, lines).faults == [] && AllShaped(Lexed(reader, lines).edges)
    ensures AllBare(reader, Expanded(reader, lines, 0))
    ensures var was, now := Lexed(reader, lines), Lexed(reader, Expanded(reader, lines, 0));
            && (now.faults == [] <==> !Broken(was.edges))
            && (now.faults == [] ==> now.fields == was.fields && PropsIn(now.edges) == AsWritten(was.edges))
  {
    hide LexFrom, Expanded, CoreRun, CoreFlush, AllBare, Steady, AllShaped, Broken;
    ExpandedIsBare(reader, lines, 0, EMPTY);
    StartsDue();
    ExpandedRuns(reader, lines, 0, EMPTY, START);
    LexedIsOutcome(reader, Expanded(reader, lines, 0));
  }

  lemma StartsDue()
    ensures Agree(Due(EMPTY), START)
  {
    hide Breaks;
    assert !Broken([]) && AsWritten([]) == [];
  }

  // ---------- exactly when every edge is kept ----------

  /** The same fields, and the same edges in the same order, up to the order of their properties. */
  ghost predicate AllKept(was: Lex, now: Lex) {
    now.faults == [] && now.fields == was.fields && SameEdges(PropsIn(now.edges), PropsIn(was.edges))
  }

  /** Written, one edge is at least one; the same one if and only if it survives. */
  lemma OneWritten(e: Placed)
    requires e.form.Inline? ==> Shaped(e.props)
    ensures !Breaks(e) ==> |Written(e)| >= 1
    ensures !Breaks(e) && |Written(e)| == 1 && SameProps(Written(e)[0], e.props) ==> (e.form.Inline? ==> Survives(EdgeOf(e.props)))
    ensures (e.form.Inline? ==> Survives(EdgeOf(e.props))) ==> !Breaks(e) && |Written(e)| == 1 && SameProps(Written(e)[0], e.props)
  {
    hide Rewritten, Survives, WellRead, SameProps, EdgeOf, PropsOf;
    if e.form.Inline? {
      ShapedIsWellRead(e.props);
      RewrittenExactly(EdgeOf(e.props));
      ReorderedIsSame(e.props);
      if !Breaks(e) && |Written(e)| == 1 && SameProps(Written(e)[0], e.props) {
        SameThrough(Written(e)[0], e.props, PropsOf(EdgeOf(e.props)));
      }
    } else {
      SameAsItself(e.props);
    }
  }

  lemma SameThrough(p: Props, q: Props, r: Props)
    requires SameProps(p, q) && SameProps(r, q)
    ensures SameProps(p, r)
  {
  }

  lemma SameAsItself(props: Props)
    ensures SameProps(props, props)
  {
  }

  /** The same edges in the same order, up to the order of their properties. */
  ghost predicate SameEdges(p: seq<Props>, q: seq<Props>) {
    |p| == |q| && forall k | 0 <= k < |p| :: SameProps(p[k], q[k])
  }

  lemma SameEdgesHead(p: Props, a: seq<Props>, q: Props, b: seq<Props>)
    ensures SameEdges([p] + a, [q] + b) <==> SameProps(p, q) && SameEdges(a, b)
  {
    hide SameProps;
    var x, y := [p] + a, [q] + b;
    if SameEdges(x, y) {
      assert SameProps(x[0], y[0]);
      forall k | 0 <= k < |a|
        ensures SameProps(a[k], b[k])
      {
        assert SameProps(x[k + 1], y[k + 1]);
      }
    }
  }

  /** Each inline edge survives if and only if the edges, once written, are the same. */
  lemma {:induction false} WrittenExactly(edges: seq<Placed>)
    requires AllShaped(edges)
    ensures !Broken(edges) ==> |AsWritten(edges)| >= |edges|
    ensures AllSurvive(edges) <==> !Broken(edges) && SameEdges(AsWritten(edges), PropsIn(edges))
  {
    hide Shaped, SameEdges, AllSurvive, Broken, AsWritten;
    if edges == [] {
      NothingWritten();
    } else {
      var e, rest := edges[0], edges[1..];
      assert edges == [e] + rest;
      assert forall k | 0 <= k < |rest| :: rest[k] == edges[k + 1];
      WrittenExactly(rest);
      OneMoreWritten(e, rest);
    }
  }

  lemma OneMoreWritten(e: Placed, rest: seq<Placed>)
    requires e.form.Inline? ==> Shaped(e.props)
    requires !Broken(rest) ==> |AsWritten(rest)| >= |rest|
    requires AllSurvive(rest) <==> !Broken(rest) && SameEdges(AsWritten(rest), PropsIn(rest))
    ensures var edges := [e] + rest;
            && (!Broken(edges) ==> |AsWritten(edges)| >= |edges|)
            && (AllSurvive(edges) <==> !Broken(edges) && SameEdges(AsWritten(edges), PropsIn(edges)))
  {
    hide *;
    OneWritten(e);
    BreaksJoin([e], rest);
    BreaksAlone(e);
    SurviveJoin(e, rest);
    WrittenHead(e, rest);
    if !Broken([e] + rest) {
      OneMoreSame(Written(e), AsWritten(rest), e.props, PropsIn(rest));
    }
  }

  lemma WrittenHead(e: Placed, rest: seq<Placed>)
    ensures AsWritten([e] + rest) == Written(e) + AsWritten(rest)
    ensures PropsIn([e] + rest) == [e.props] + PropsIn(rest)
    ensures |PropsIn(rest)| == |rest|
  {
    hide Written;
    assert ([e] + rest)[1..] == rest;
  }

  lemma NothingWritten()
    ensures !Broken([]) && AsWritten([]) == [] && AllSurvive([]) && SameEdges([], PropsIn([]))
  {
    hide Breaks;
  }

  lemma OneMoreSame(w: seq<Props>, a: seq<Props>, q: Props, b: seq<Props>)
    requires |w| >= 1 && |a| >= |b|
    ensures SameEdges(w + a, [q] + b) <==> |w| == 1 && SameProps(w[0], q) && SameEdges(a, b)
  {
    hide SameProps;
    if |w| == 1 {
      assert w == [w[0]];
      SameEdgesHead(w[0], a, q, b);
    }
  }

  lemma BreaksAlone(e: Placed)
    ensures Broken([e]) <==> Breaks(e)
  {
    hide Breaks;
    if Breaks(e) {
      assert Breaks([e][0]);
    }
  }

  lemma SurviveJoin(e: Placed, rest: seq<Placed>)
    ensures AllSurvive([e] + rest) <==> (e.form.Inline? ==> Survives(EdgeOf(e.props))) && AllSurvive(rest)
  {
    hide Survives, EdgeOf;
    var all := [e] + rest;
    assert forall k | 0 <= k < |rest| :: rest[k] == all[k + 1];
    assert all[0] == e;
  }

  /** Rewriting the inline lists keeps every field and every edge if and only if every inline edge can be written: no
      attribute is empty, and its values are bare tokens or fit their lines. */
  lemma ExpansionKeepsExactly(reader: Reader, lines: seq<Text>)
    requires Steady(reader) && Lexed(reader, lines).faults == [] && AllShaped(Lexed(reader, lines).edges)
    ensures AllBare(reader, Expanded(reader, lines, 0))
    ensures AllKept(Lexed(reader, lines), Lexed(reader, Expanded(reader, lines, 0))) <==> AllSurvive(Lexed(reader, lines).edges)
  {
    hide Lexed, Expanded, AllBare, Steady, AllShaped, AllSurvive, SameEdges, Broken, AsWritten;
    ExpansionComesTo(reader, lines);
    WrittenExactly(Lexed(reader, lines).edges);
  }

  // ---------- the edge editors ----------

  /** The same fields, the old edges up to the order of their properties, then the new one. */
  ghost predicate OnlyAdded(was: Lex, now: Lex, props: Props) {
    && now.faults == [] && now.fields == was.fields
    && now.edges != [] && now.edges[|now.edges| - 1].props == props
    && SameEdges(PropsIn(now.edges)[..|now.edges| - 1], PropsIn(was.edges))
  }

  /** Append an edge of bare tokens. Nothing but that edge is added if and only if every inline edge can be written. */
  method WithEdge(reader: Reader, lines: seq<Text>, kind: Text, to: Text, attrs: Props) returns (edited: seq<Text>)
    requires Steady(reader) && Lexed(reader, lines).faults == [] && AllShaped(Lexed(reader, lines).edges)
    requires IsToken(kind) && IsToken(to) && FlowAttrsFit(attrs)
    ensures var was, now := Lexed(reader, lines), Lexed(reader, edited);
            var props := PutAll([(TYPE, kind), (TO, to)], attrs);
            && (OnlyAdded(was, now, props) <==> AllSurvive(was.edges))
            && (now.faults == [] <==> !Broken(was.edges))
            && (now.faults == [] ==> now.fields == was.fields && PropsIn(now.edges) == AsWritten(was.edges) + [props])
  {
    hide Lexed, Expanded, AllBare, Steady, PutAll, IsToken, FlowAttrsFit, SameProps, AllShaped, AllSurvive, Broken, AsWritten;
    ExpansionComesTo(reader, lines);
    ExpansionKeepsExactly(reader, lines);
    edited := AppendEdge(reader, Expanded(reader, lines, 0), kind, to, attrs);
    AddedExactly(Lexed(reader, lines), Lexed(reader, Expanded(reader, lines, 0)), Lexed(reader, edited),
                 PutAll([(TYPE, kind), (TO, to)], attrs));
  }

  lemma AddedExactly(was: Lex, mid: Lex, now: Lex, props: Props)
    requires now.faults == [] <==> mid.faults == []
    requires now.faults == [] ==> now.fields == mid.fields && PropsIn(now.edges) == PropsIn(mid.edges) + [props]
    ensures OnlyAdded(was, now, props) <==> AllKept(was, mid)
  {
    hide SameEdges;
    if now.faults == [] {
      var all := PropsIn(now.edges);
      assert all[|all| - 1] == now.edges[|all| - 1].props && all[..|all| - 1] == PropsIn(mid.edges);
    }
  }

  /** Same canonical type, same target. */
  predicate SameEdge(props: Props, kind: Text, to: Text, canon: Text -> Text) {
    canon(Lookup(props, TYPE).GetOr([])) == canon(kind) && Lookup(props, TO).GetOr([]) == to
  }

  lemma SamePropsSameEdge(p: Props, q: Props, kind: Text, to: Text, canon: Text -> Text)
    requires SameProps(p, q)
    ensures SameEdge(p, kind, to, canon) == SameEdge(q, kind, to, canon)
  {
    assert Lookup<Text>(p, TYPE) == Lookup<Text>(q, TYPE) && Lookup<Text>(p, TO) == Lookup<Text>(q, TO);
  }

  /** No edge before `k` has this identity, and the one at `k` has. */
  predicate FirstAt(edges: seq<Props>, k: nat, kind: Text, to: Text, canon: Text -> Text)
    requires k < |edges|
  {
    SameEdge(edges[k], kind, to, canon) && forall j | 0 <= j < k :: !SameEdge(edges[j], kind, to, canon)
  }

  predicate NoneSame(edges: seq<Props>, kind: Text, to: Text, canon: Text -> Text) {
    forall k | 0 <= k < |edges| :: !SameEdge(edges[k], kind, to, canon)
  }

  /** Without exactly the first edge of this identity. */
  ghost predicate FirstDropped(was: seq<Props>, now: seq<Props>, kind: Text, to: Text, canon: Text -> Text) {
    exists k | 0 <= k < |was| :: FirstAt(was, k, kind, to, canon) && now == Dropped(was, k)
  }

  /** The same, up to the order of the properties of each. */
  ghost predicate FirstGone(was: seq<Props>, now: seq<Props>, kind: Text, to: Text, canon: Text -> Text) {
    exists k | 0 <= k < |was| :: FirstAt(was, k, kind, to, canon) && SameEdges(now, Dropped(was, k))
  }

  /** The first edge of this identity is at `k`, as the edges were read and as they are once written. */
  predicate SamePlace(edges: seq<Placed>, k: nat, kind: Text, to: Text, canon: Text -> Text) {
    && k < |edges| && k < |AsWritten(edges)|
    && FirstAt(PropsIn(edges), k, kind, to, canon) && FirstAt(AsWritten(edges), k, kind, to, canon)
  }

  /** Every inline edge but the one at `k` survives, and that one is written as a single edge. */
  predicate OthersSurvive(edges: seq<Placed>, k: nat)
    requires k < |edges|
  {
    |Written(edges[k])| == 1 && AllSurvive(edges[..k]) && AllSurvive(edges[k + 1..])
  }

  lemma SameEdgesJoin(p: seq<Props>, a: seq<Props>, q: seq<Props>, b: seq<Props>)
    requires |p| == |q|
    ensures SameEdges(p + a, q + b) <==> SameEdges(p, q) && SameEdges(a, b)
  {
    hide SameProps;
    var x, y := p + a, q + b;
    if SameEdges(x, y) {
      forall k | 0 <= k < |p|
        ensures SameProps(p[k], q[k])
      {
        assert SameProps(x[k], y[k]);
      }
      forall k | 0 <= k < |a|
        ensures SameProps(a[k], b[k])
      {
        assert SameProps(x[|p| + k], y[|p| + k]);
      }
    }
  }

  lemma AllShapedParts(edges: seq<Placed>, k: nat)
    requires k < |edges| && AllShaped(edges)
    ensures AllShaped(edges[..k]) && AllShaped(edges[k + 1..]) && (edges[k].form.Inline? ==> Shaped(edges[k].props))
  {
    hide Shaped;
  }

  lemma PartsAround(edges: seq<Placed>, k: nat)
    requires k < |edges|
    ensures var a, e, b := edges[..k], edges[k], edges[k + 1..];
            && AsWritten(edges) == AsWritten(a) + Written(e) + AsWritten(b)
            && PropsIn(edges) == PropsIn(a) + [e.props] + PropsIn(b)
            && (Broken(edges) <==> Broken(a) || Breaks(e) || Broken(b))
  {
    hide Written, Breaks, Broken, AsWritten;
    var a, e, b := edges[..k], edges[k], edges[k + 1..];
    assert edges == a + ([e] + b);
    WrittenJoins(a, [e] + b);
    BreaksJoin(a, [e] + b);
    BreaksJoin([e], b);
    BreaksAlone(e);
    WrittenHead(e, b);
    assert AsWritten(a) + (Written(e) + AsWritten(b)) == AsWritten(a) + Written(e) + AsWritten(b);
  }

  /** Without the edge at `k`, the edges as written are those read without it if and only if the others survive. */
  lemma RemovedExactly(edges: seq<Placed>, k: nat)
    requires AllShaped(edges) && !Broken(edges) && k < |edges| && k < |AsWritten(edges)|
    ensures SameEdges(Dropped(AsWritten(edges), k), Dropped(PropsIn(edges), k)) <==> OthersSurvive(edges, k)
  {
    hide AllShaped, AllSurvive, Broken, Breaks, AsWritten, Written, SameProps, Shaped, Survives, EdgeOf, SameEdges;
    var a, e, b := edges[..k], edges[k], edges[k + 1..];
    AllShapedParts(edges, k);
    PartsAround(edges, k);
    WrittenExactly(a);
    WrittenExactly(b);
    OneWritten(e);
    var wa, we, wb := AsWritten(a), Written(e), AsWritten(b);
    if SameEdges(Dropped(AsWritten(edges), k), Dropped(PropsIn(edges), k)) {
      SameLength(Dropped(AsWritten(edges), k), Dropped(PropsIn(edges), k));
    }
    if OthersSurvive(edges, k) {
      SameLength(wa, PropsIn(a));
    }
    if |wa| == k && |we| == 1 {
      assert Dropped(wa + we + wb, k) == wa + wb && Dropped(PropsIn(a) + [e.props] + PropsIn(b), k) == PropsIn(a) + PropsIn(b);
      SameEdgesJoin(wa, wb, PropsIn(a), PropsIn(b));
    }
  }

  lemma SameLength(p: seq<Props>, q: seq<Props>)
    requires SameEdges(p, q)
    ensures |p| == |q|
  {
  }

  /** Remove the first edge with this identity: of the edges as they are written out, exactly that one; of the edges as
      they were read, where every inline one can be written. */
  method WithoutEdge(reader: Reader, lines: seq<Text>, kind: Text, to: Text, canon: Text -> Text)
    returns (r: Option<seq<Text>>)
    requires Steady(reader) && Lexed(reader, lines).faults == [] && AllShaped(Lexed(reader, lines).edges)
    ensures r.None? <==> NoneSame(PropsIn(Lexed(reader, Expanded(reader, lines, 0)).edges), kind, to, canon)
    ensures var was := Lexed(reader, lines);
            && (!Broken(was.edges) ==>
                  match r
                  case None => NoneSame(AsWritten(was.edges), kind, to, canon)
                  case Some(edited) =>
                    var now := Lexed(reader, edited);
                    now.faults == [] && now.fields == was.fields
                    && FirstDropped(AsWritten(was.edges), PropsIn(now.edges), kind, to, canon))
            && (AllSurvive(was.edges) ==>
                  match r
                  case None => NoneSame(PropsIn(was.edges), kind, to, canon)
                  case Some(edited) =>
                    var now := Lexed(reader, edited);
                    now.faults == [] && now.fields == was.fields
                    && FirstGone(PropsIn(was.edges), PropsIn(now.edges), kind, to, canon))
    ensures var was := Lexed(reader, lines);
            !Broken(was.edges) ==>
              forall k: nat | SamePlace(was.edges, k, kind, to, canon) ::
                r.Some? && (SameEdges(PropsIn(Lexed(reader, r.value).edges), Dropped(PropsIn(was.edges), k)) <==> OthersSurvive(was.edges, k))
  {
    hide Lexed, Expanded, AllBare, Steady, SameEdge, Dropped, SameProps, AllShaped, AllSurvive, Broken, AsWritten, FirstGone,
         OthersSurvive, SameEdges;
    ExpansionComesTo(reader, lines);
    ghost var was, written := Lexed(reader, lines), AsWritten(Lexed(reader, lines).edges);
    WrittenExactly(was.edges);
    r := CutEdge(reader, Expanded(reader, lines, 0), (props: Props) => SameEdge(props, kind, to, canon));
    if !Broken(was.edges) {
      forall k: nat | SamePlace(was.edges, k, kind, to, canon)
        ensures r.Some? && (SameEdges(PropsIn(Lexed(reader, r.value).edges), Dropped(PropsIn(was.edges), k)) <==> OthersSurvive(was.edges, k))
      {
        RemovedExactly(was.edges, k);
        FirstIsOne(written, k, kind, to, canon);
      }
    }
    if AllSurvive(was.edges) {
      NoneAlike(written, PropsIn(was.edges), kind, to, canon);
      if r.Some? {
        GoneAlike(written, PropsIn(was.edges), PropsIn(Lexed(reader, r.value).edges), kind, to, canon);
      }
    }
  }

  lemma FirstIsOne(edges: seq<Props>, k: nat, kind: Text, to: Text, canon: Text -> Text)
    requires k < |edges| && FirstAt(edges, k, kind, to, canon)
    ensures forall m: nat | m < |edges| && FirstAt(edges, m, kind, to, canon) :: m == k
  {
    hide SameEdge;
  }

  lemma NoneAlike(p: seq<Props>, q: seq<Props>, kind: Text, to: Text, canon: Text -> Text)
    requires SameEdges(p, q)
    ensures forall k | 0 <= k < |p| :: SameEdge(p[k], kind, to, canon) == SameEdge(q[k], kind, to, canon)
  {
    hide SameEdge, SameProps;
    forall k | 0 <= k < |p|
      ensures SameEdge(p[k], kind, to, canon) == SameEdge(q[k], kind, to, canon)
    {
      SamePropsSameEdge(p[k], q[k], kind, to, canon);
    }
  }

  lemma GoneAlike(p: seq<Props>, q: seq<Props>, now: seq<Props>, kind: Text, to: Text, canon: Text -> Text)
    requires SameEdges(p, q) && FirstDropped(p, now, kind, to, canon)
    ensures FirstGone(q, now, kind, to, canon)
  {
    hide SameEdge, SameProps;
    NoneAlike(p, q, kind, to, canon);
    var k :| 0 <= k < |p| && FirstAt(p, k, kind, to, canon) && now == Dropped(p, k);
    assert FirstAt(q, k, kind, to, canon);
    assert forall j | 0 <= j < |now| :: now[j] == p[if j < k then j else j + 1];
    assert SameEdges(now, Dropped(q, k));
  }
}
