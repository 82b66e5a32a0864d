/** The lexer without its line numbers: what a run of lines reads as, apart from where it stands.
    Editing moves lines, so the editors are proved against this (`lib/kernel/frontmatter.js`). */
module FrontmatterCore {
  import opened Common
  import opened ContentText
  import opened FrontmatterScalar
  import opened FrontmatterLines
  import opened FrontmatterLexer

  datatype CoreMode = Nothing | Folds(key: Text, raw: Text) | Lists(key: Text) | UnderEdges(open: Option<Props>)

  datatype Core = Core(fields: Fields, edges: seq<Props>, faulty: bool, mode: CoreMode)

  const START := Core([], [], false, Nothing)

  function ModeCore(m: Mode): CoreMode {
    match m
    case Idle => Nothing
    case Folding(k, raw) => Folds(k, raw)
    case Listing(k) => Lists(k)
    case InEdges(open) => UnderEdges(if open.Some? then Some(open.value.props) else None)
  }

  function CoreOf(x: Lex): Core {
    Core(x.fields, PropsIn(x.edges), x.faults != [], ModeCore(x.mode))
  }

  function CoreFlush(c: Core): Core {
    if c.mode.UnderEdges? && c.mode.open.Some? then
      if Complete(c.mode.open.value) then c.(edges := c.edges + [c.mode.open.value], mode := UnderEdges(None))
      else c.(faulty := true, mode := UnderEdges(None))
    else c
  }

  function CoreKey(c: Core, k: Text, raw: Text): Core {
    if k == EDGES then c.(mode := UnderEdges(None))
    else if IsListField(k) && Trim(raw) == [] then c.(fields := Put(c.fields, k, List([])), mode := Lists(k))
    else c.(fields := Put(c.fields, k, Scalar(ScalarValue(raw))), mode := Folds(k, raw))
  }

  function CoreFold(c: Core, more: Text): Core
    requires c.mode.Folds?
  {
    var k := c.mode.key;
    if QuoteOpen(Trim(c.mode.raw)) then
      var raw := c.mode.raw + [SPACE] + Trim(more);
      c.(fields := Put(c.fields, k, Scalar(ScalarValue(raw))), mode := Folds(k, raw))
    else c.(fields := Put(c.fields, k, Scalar(TextOf(c.fields, k) + [SPACE] + Trim(more))))
  }

  function CoreEdgeLine(c: Core, v: View): Core
    requires c.mode.UnderEdges? && v.Other?
  {
    if v.open.Some? then
      CoreFlush(c).(mode := UnderEdges(Some([(BlockKey(v.open.value.0), ScalarValue(Trim(v.open.value.1)))])))
    else if c.mode.open.Some? && v.cont.Some? then
      c.(mode := UnderEdges(Some(Put(c.mode.open.value, BlockKey(v.cont.value.0), ScalarValue(Trim(v.cont.value.1))))))
    else if v.blank then c
    else c.(faulty := true)
  }

  function CoreStep(c: Core, v: View): Core {
    match v
    case ListLine(k, items) => var d := CoreFlush(c); d.(fields := Put(d.fields, k, List(items)), mode := Nothing)
    case KeyLine(k, raw) => CoreKey(CoreFlush(c), k, raw)
    case FlowLine(props) => var d := CoreFlush(c); d.(edges := d.edges + [props])
    case Other(_, _, item, folded, _) =>
      match c.mode
      case UnderEdges(_) => CoreEdgeLine(c, v)
      case Lists(k) =>
        if item.Some? then c.(fields := Put(c.fields, k, List(ItemsOf(c.fields, k) + [ScalarValue(Trim(item.value))]))) else c
      case Folds(_, _) => if folded.Some? then CoreFold(c, folded.value) else c
      case Nothing => c
  }

  function CoreRun(c: Core, vs: seq<View>): Core
    decreases |vs|
  {
    if vs == [] then c else CoreRun(CoreStep(c, vs[0]), vs[1..])
  }

  /** What a whole block of lines comes to. */
  function Outcome(vs: seq<View>): Core {
    CoreFlush(CoreRun(START, vs))
  }

  function Views(lines: seq<Text>): (r: seq<View>)
    ensures |r| == |lines| && forall k | 0 <= k < |r| :: r[k] == ViewOf(lines[k])
  {
    seq(|lines|, k requires 0 <= k < |lines| => ViewOf(lines[k]))
  }

  // ---------- the lexer is this run ----------

  /** Whether a header carries a value shows on its own line. */
  ghost predicate Steady(reader: Reader) {
    forall line: Text, a: seq<Text>, b: seq<Text> :: reader.read([line] + a).NoValue? ==> reader.read([line] + b).NoValue?
  }

  /** The line is no `edges:` header with a value on it. */
  ghost predicate Bare(reader: Reader, line: Text) {
    match ViewOf(line)
    case KeyLine(k, raw) => k == EDGES && Trim(raw) != [] ==> forall rest: seq<Text> :: reader.read([line] + rest).NoValue?
    case _ => true
  }

  ghost predicate AllBare(reader: Reader, lines: seq<Text>) {
    forall i | 0 <= i < |lines| :: Bare(reader, lines[i])
  }

  lemma FlushIsCore(x: Lex, i: nat)
    ensures CoreOf(Flush(x, i)) == CoreFlush(CoreOf(x))
  {
    hide Complete;
  }

  lemma StepIsCore(x: Lex, i: nat, v: View)
    ensures CoreOf(Step(x, i, v)) == CoreStep(CoreOf(x), v)
  {
    hide Complete, QuoteOpen, ScalarValue, Trim, Put, IsListField, Flush, CoreFlush, TextOf, ItemsOf, ExtendTo, EdgeBlockStep,
         CoreEdgeLine;
    FlushIsCore(x, i);
    match v
    case FlowLine(props) =>
      var y := Flush(x, i);
      assert PropsIn(y.edges + [Placed(props, Flow, i, i + 1)]) == PropsIn(y.edges) + [props];
    case Other(_, _, _, _, _) =>
      if x.mode.InEdges? {
        EdgeLineIsCore(x, i, v);
      } else {
        ModeLineIsCore(x, i, v);
      }
    case _ =>
  }

  lemma EdgeLineIsCore(x: Lex, i: nat, v: View)
    requires v.Other? && x.mode.InEdges?
    ensures CoreOf(EdgeBlockStep(x, i, v)) == CoreEdgeLine(CoreOf(x), v)
  {
    hide Complete, ScalarValue, Trim, Put, Flush, CoreFlush, ExtendTo;
    FlushIsCore(x, i);
  }

  /** A line under no edges: an item, a folded text, or nothing. */
  lemma ModeLineIsCore(x: Lex, i: nat, v: View)
    requires v.Other? && !x.mode.InEdges?
    ensures CoreOf(Step(x, i, v)) == CoreStep(CoreOf(x), v)
  {
    hide QuoteOpen, ScalarValue, Trim, Put, TextOf, ItemsOf, ExtendTo;
  }

  lemma BareTurn(reader: Reader, lines: seq<Text>, i: nat, x: Lex)
    requires i < |lines| && Bare(reader, lines[i])
    ensures Turn(reader, lines, i, x) == (Step(x, i, ViewOf(lines[i])), i + 1)
  {
    hide ViewOf, Step, Trim;
    assert lines[i..] == [lines[i]] + lines[i + 1..];
  }

  lemma {:induction false} LexIsRun(reader: Reader, lines: seq<Text>, i: nat, x: Lex)
    requires i <= |lines| && AllBare(reader, lines)
    ensures CoreOf(LexFrom(reader, lines, i, x)) == CoreFlush(CoreRun(CoreOf(x), Views(lines)[i..]))
    decreases |lines| - i
  {
    hide Turn, Step, CoreStep, CoreFlush, Flush, Bare, ViewOf, CoreOf;
    var vs := Views(lines);
    if i == |lines| {
      FlushIsCore(x, i);
    } else {
      BareTurn(reader, lines, i, x);
      StepIsCore(x, i, vs[i]);
      assert vs[i..][0] == vs[i] && vs[i..][1..] == vs[i + 1..];
      LexIsRun(reader, lines, i + 1, Step(x, i, vs[i]));
    }
  }

  /** Where no header carries a value, fields, edges and faults are those of the run. */
  lemma LexedIsOutcome(reader: Reader, lines: seq<Text>)
    requires AllBare(reader, lines)
    ensures CoreOf(Lexed(reader, lines)) == Outcome(Views(lines))
  {
    hide CoreRun, CoreFlush, AllBare, LexFrom;
    LexIsRun(reader, lines, 0, EMPTY);
    assert Views(lines)[0..] == Views(lines);
    assert CoreOf(EMPTY) == START;
  }

  // ---------- runs ----------

  lemma {:induction false} RunConcat(c: Core, a: seq<View>, b: seq<View>)
    ensures CoreRun(c, a + b) == CoreRun(CoreRun(c, a), b)
    decreases |a|
  {
    hide CoreStep;
    if a == [] {
      assert a + b == b;
    } else {
      assert (a + b)[0] == a[0] && (a + b)[1..] == a[1..] + b;
      RunConcat(CoreStep(c, a[0]), a[1..], b);
    }
  }

  /** The same state with `front` before its edges. */
  function Behind(front: seq<Props>, c: Core): Core {
    c.(edges := front + c.edges)
  }

  lemma StepBehind(front: seq<Props>, c: Core, v: View)
    ensures CoreStep(Behind(front, c), v) == Behind(front, CoreStep(c, v))
    ensures CoreFlush(Behind(front, c)) == Behind(front, CoreFlush(c))
  {
    hide Complete, QuoteOpen, ScalarValue, Trim, Put, IsListField, TextOf, ItemsOf;
    FlushBehind(front, c);
    if v.FlowLine? {
      assert front + (CoreFlush(c).edges + [v.props]) == front + CoreFlush(c).edges + [v.props];
    }
  }

  lemma FlushBehind(front: seq<Props>, c: Core)
    ensures CoreFlush(Behind(front, c)) == Behind(front, CoreFlush(c))
  {
    hide Complete;
    if c.mode.UnderEdges? && c.mode.open.Some? {
      assert front + (c.edges + [c.mode.open.value]) == front + c.edges + [c.mode.open.value];
    }
  }

  lemma {:induction false} RunBehind(front: seq<Props>, c: Core, vs: seq<View>)
    ensures CoreFlush(CoreRun(Behind(front, c), vs)) == Behind(front, CoreFlush(CoreRun(c, vs)))
    decreases |vs|
  {
    hide CoreStep, CoreFlush, Behind;
    if vs == [] {
      FlushBehind(front, c);
    } else {
      StepBehind(front, c, vs[0]);
      RunBehind(front, CoreStep(c, vs[0]), vs[1..]);
    }
  }

  /** What the lines add to edges and faults, read from this mode on. */
  function Added(m: CoreMode, vs: seq<View>): Core {
    CoreFlush(CoreRun(Core([], [], false, m), vs))
  }

  lemma StepsAlike(front: seq<Props>, bad: bool, c: Core, x: Core, v: View)
    requires c.mode == x.mode && c.edges == front + x.edges && c.faulty == (bad || x.faulty)
    ensures var d, y := CoreStep(c, v), CoreStep(x, v);
            d.mode == y.mode && d.edges == front + y.edges && d.faulty == (bad || y.faulty)
  {
    hide Complete, QuoteOpen, ScalarValue, Trim, Put, IsListField, TextOf, ItemsOf;
    FlushesAlike(front, bad, c, x);
    if v.FlowLine? {
      assert front + (CoreFlush(x).edges + [v.props]) == front + CoreFlush(x).edges + [v.props];
    }
  }

  lemma FlushesAlike(front: seq<Props>, bad: bool, c: Core, x: Core)
    requires c.mode == x.mode && c.edges == front + x.edges && c.faulty == (bad || x.faulty)
    ensures var d, y := CoreFlush(c), CoreFlush(x);
            d.mode == y.mode && d.edges == front + y.edges && d.faulty == (bad || y.faulty)
  {
    hide Complete;
    if c.mode.UnderEdges? && c.mode.open.Some? {
      assert front + (x.edges + [c.mode.open.value]) == front + x.edges + [c.mode.open.value];
    }
  }

  /** Edges, faults and the mode depend on nothing but the mode and the lines. */
  lemma {:induction false} RunsAlike(front: seq<Props>, bad: bool, c: Core, x: Core, vs: seq<View>)
    requires c.mode == x.mode && c.edges == front + x.edges && c.faulty == (bad || x.faulty)
    ensures var d, y := CoreRun(c, vs), CoreRun(x, vs);
            d.mode == y.mode && d.edges == front + y.edges && d.faulty == (bad || y.faulty)
    decreases |vs|
  {
    hide CoreStep;
    if vs != [] {
      StepsAlike(front, bad, c, x, vs[0]);
      RunsAlike(front, bad, CoreStep(c, vs[0]), CoreStep(x, vs[0]), vs[1..]);
    }
  }

  lemma RunAdds(c: Core, vs: seq<View>)
    ensures var d, y := CoreFlush(CoreRun(c, vs)), Added(c.mode, vs);
            d.mode == y.mode && d.edges == c.edges + y.edges && d.faulty == (c.faulty || y.faulty)
  {
    hide CoreRun, CoreFlush;
    var x := Core([], [], false, c.mode);
    RunsAlike(c.edges, c.faulty, c, x, vs);
    FlushesAlike(c.edges, c.faulty, CoreRun(c, vs), CoreRun(x, vs));
  }

  lemma FaultStays(c: Core, v: View)
    requires c.faulty
    ensures CoreStep(c, v).faulty && CoreFlush(c).faulty
  {
    hide Complete, QuoteOpen, ScalarValue, Trim, Put, IsListField, TextOf, ItemsOf;
  }

  lemma {:induction false} FaultStaysInRun(c: Core, vs: seq<View>)
    requires c.faulty
    ensures CoreFlush(CoreRun(c, vs)).faulty
    decreases |vs|
  {
    hide CoreStep, CoreFlush;
    if vs == [] {
      FaultStays(c, FlowLine([]));
    } else {
      FaultStays(c, vs[0]);
      FaultStaysInRun(CoreStep(c, vs[0]), vs[1..]);
    }
  }

  // ---------- closing a block edge early ----------

  /** The line closes whatever block edge is open. */
  predicate Closing(v: View) {
    !v.Other? || v.open.Some?
  }

  /** No line both goes on with an edge and is blank. */
  ghost predicate Sane(vs: seq<View>) {
    forall i | 0 <= i < |vs| :: vs[i].Other? && vs[i].cont.Some? ==> !vs[i].blank
  }

  lemma ClosingFlushes(c: Core, v: View)
    requires Closing(v)
    ensures CoreStep(CoreFlush(c), v) == CoreStep(c, v) || !c.mode.UnderEdges?
    ensures !c.mode.UnderEdges? ==> CoreFlush(c) == c
  {
    hide Complete, QuoteOpen, ScalarValue, Trim, Put, IsListField, TextOf, ItemsOf;
  }

  /** An open block edge may be closed at once, if the lines that follow are no fault without it. */
  lemma {:induction false} ClosedEarly(c: Core, vs: seq<View>)
    requires Sane(vs) && !CoreFlush(CoreRun(CoreFlush(c), vs)).faulty
    ensures CoreFlush(CoreRun(c, vs)) == CoreFlush(CoreRun(CoreFlush(c), vs))
    decreases |vs|
  {
    hide CoreStep, CoreFlush;
    FlushTwice(c);
    if vs != [] && c.mode.UnderEdges? && c.mode.open.Some? {
      var v := vs[0];
      if Closing(v) {
        ClosingFlushes(c, v);
      } else if CoreStep(CoreFlush(c), v).faulty {
        FaultStaysInRun(CoreStep(CoreFlush(c), v), vs[1..]);
      } else {
        BlankIsIdle(c, v);
        ClosedEarly(c, vs[1..]);
      }
    }
  }

  lemma FlushTwice(c: Core)
    ensures CoreFlush(CoreFlush(c)) == CoreFlush(c)
    ensures !(c.mode.UnderEdges? && c.mode.open.Some?) ==> CoreFlush(c) == c
  {
  }

  lemma BlankIsIdle(c: Core, v: View)
    requires c.mode.UnderEdges? && c.mode.open.Some? && !Closing(v) && (v.cont.Some? ==> !v.blank)
    requires !CoreStep(CoreFlush(c), v).faulty
    ensures CoreStep(c, v) == c && CoreStep(CoreFlush(c), v) == CoreFlush(c)
  {
    hide Complete;
  }

  /** The same, when the next line closes it anyway. */
  lemma ClosedNext(c: Core, vs: seq<View>)
    requires vs == [] || Closing(vs[0])
    ensures CoreFlush(CoreRun(c, vs)) == CoreFlush(CoreRun(CoreFlush(c), vs))
  {
    hide CoreStep, CoreFlush;
    FlushTwice(c);
    if vs != [] && c.mode.UnderEdges? {
      ClosingFlushes(c, vs[0]);
    }
  }

  // ---------- one edge more or less ----------

  /** The lines after an edge, read with and without it: the same but for that edge. */
  lemma EdgeApart(c: Core, p: Props, vs: seq<View>)
    ensures var tail := CoreFlush(CoreRun(CoreFlush(c).(edges := []), vs));
            && CoreFlush(CoreRun(CoreFlush(c).(edges := CoreFlush(c).edges + [p]), vs))
               == Behind(CoreFlush(c).edges + [p], tail)
            && CoreFlush(CoreRun(CoreFlush(c), vs)) == Behind(CoreFlush(c).edges, tail)
  {
    hide CoreStep, CoreRun;
    var d := CoreFlush(c);
    var bare := d.(edges := []);
    RunBehind(d.edges + [p], bare, vs);
    RunBehind(d.edges, bare, vs);
    assert d.edges + [p] + [] == d.edges + [p] && d.edges + [] == d.edges;
    assert Behind(d.edges + [p], bare) == d.(edges := d.edges + [p]);
    assert Behind(d.edges, bare) == d;
  }

  /** The edges with the one at `k` left out. */
  function Dropped(edges: seq<Props>, k: nat): seq<Props>
    requires k < |edges|
  {
    edges[..k] + edges[k + 1..]
  }

  /** Without a flow line only its edge is gone. */
  lemma WithoutFlow(a: seq<View>, p: Props, b: seq<View>)
    requires Sane(b) && !Outcome(a + [FlowLine(p)] + b).faulty
    ensures var was, now, k := Outcome(a + [FlowLine(p)] + b), Outcome(a + b), |Outcome(a).edges|;
            k < |was.edges| && was.edges[k] == p && now.edges == Dropped(was.edges, k)
            && now.fields == was.fields && !now.faulty
  {
    hide CoreStep, CoreFlush, CoreRun;
    var c := CoreRun(START, a);
    RunConcat(START, a + [FlowLine(p)], b);
    RunConcat(START, a, [FlowLine(p)]);
    RunConcat(START, a, b);
    OneStep(c, FlowLine(p));
    EdgeApart(c, p, b);
    ClosedEarly(c, b);
    var front, tail := CoreFlush(c).edges, CoreFlush(CoreRun(CoreFlush(c).(edges := []), b));
    assert (front + [p] + tail.edges)[..|front|] == front;
    assert (front + [p] + tail.edges)[|front| + 1..] == tail.edges;
  }

  lemma OneStep(c: Core, v: View)
    ensures CoreRun(c, [v]) == CoreStep(c, v)
    ensures v.FlowLine? ==> CoreStep(c, v) == CoreFlush(c).(edges := CoreFlush(c).edges + [v.props])
  {
    hide CoreFlush;
    assert [v][1..] == [];
  }

  /** Without a block edge's lines only that edge is gone. */
  lemma WithoutBlock(a: seq<View>, block: seq<View>, p: Props, b: seq<View>)
    requires b == [] || Closing(b[0])
    requires Complete(p)
    requires CoreRun(CoreRun(START, a), block) == CoreFlush(CoreRun(START, a)).(mode := UnderEdges(Some(p)))
    requires CoreRun(START, a).mode.UnderEdges?
    ensures var was, now, k := Outcome(a + block + b), Outcome(a + b), |Outcome(a).edges|;
            k < |was.edges| && was.edges[k] == p && now.edges == Dropped(was.edges, k)
            && now.fields == was.fields && now.faulty == was.faulty
  {
    hide CoreStep, CoreRun, Complete;
    var c := CoreRun(START, a);
    RunConcat(START, a + block, b);
    RunConcat(START, a, block);
    RunConcat(START, a, b);
    var open := CoreRun(c, block);
    ClosedNext(open, b);
    ClosedNext(c, b);
    assert CoreFlush(open) == CoreFlush(c).(edges := CoreFlush(c).edges + [p]);
    EdgeApart(c, p, b);
    var front, tail := CoreFlush(c).edges, CoreFlush(CoreRun(CoreFlush(c).(edges := []), b));
    assert (front + [p] + tail.edges)[..|front|] == front;
    assert (front + [p] + tail.edges)[|front| + 1..] == tail.edges;
  }

  /** One flow line more, where the block edge before it is closed and no edge follows. */
  lemma WithFlow(a: seq<View>, p: Props, b: seq<View>)
    requires !(CoreRun(START, a).mode.UnderEdges? && CoreRun(START, a).mode.open.Some?) || b == [] || Closing(b[0])
    requires |Outcome(a + b).edges| == |Outcome(a).edges|
    ensures var was, now := Outcome(a + b), Outcome(a + [FlowLine(p)] + b);
            now.edges == was.edges + [p] && now.fields == was.fields && now.faulty == was.faulty
  {
    hide CoreStep, CoreFlush, CoreRun, Closing, Behind;
    var c := CoreRun(START, a);
    RunConcat(START, a + [FlowLine(p)], b);
    RunConcat(START, a, [FlowLine(p)]);
    RunConcat(START, a, b);
    OneStep(c, FlowLine(p));
    EdgeApart(c, p, b);
    ClosedHere(c, b);
    OneMoreBehind(CoreFlush(c).edges, p, CoreFlush(CoreRun(CoreFlush(c).(edges := []), b)));
  }

  lemma ClosedHere(c: Core, vs: seq<View>)
    requires !(c.mode.UnderEdges? && c.mode.open.Some?) || vs == [] || Closing(vs[0])
    ensures CoreFlush(CoreRun(c, vs)) == CoreFlush(CoreRun(CoreFlush(c), vs))
  {
    hide CoreFlush, CoreRun;
    FlushTwice(c);
    if c.mode.UnderEdges? && c.mode.open.Some? {
      ClosedNext(c, vs);
    }
  }

  lemma OneMoreBehind(front: seq<Props>, p: Props, tail: Core)
    ensures var was, now := Behind(front, tail), Behind(front + [p], tail);
            && now.fields == was.fields && now.faulty == was.faulty
            && (|was.edges| == |front| ==> now.edges == was.edges + [p])
  {
  }
}
