/** A block with inline edge values as a run of lines: each value stands as the flow edges it reads as
    (`lib/kernel/frontmatter.js`). */
module FrontmatterMarks {
  import opened Common
  import opened ContentText
  import opened FrontmatterScalar
  import opened FrontmatterLines
  import opened FrontmatterLexer
  import opened FrontmatterCore
  import opened FrontmatterEdit
  import opened FrontmatterCut

  /** A value that ends before the lines do reads the same whatever follows it. One that runs to the last
      line may not: a quote that never closes gathers every line there is. */
  ghost predicate Settled(reader: Reader, s: seq<Text>, t: seq<Text>) {
    s != [] && reader.read(s).Reads? ==>
      var span := reader.read(s).span;
      1 <= span <= |s| && (span < |s| ==> reader.read(s[..span] + t) == reader.read(s))
  }

  /** What the reader of inline values looks at. */
  ghost predicate Local(reader: Reader) {
    Steady(reader) && forall s, t :: Settled(reader, s, t)
  }

  // ---------- marks ----------

  /** The lines the first one takes with it. */
  function Width(reader: Reader, s: seq<Text>): (w: nat)
    requires s != []
    ensures 1 <= w <= |s|
  {
    match InlineAt(reader, s, 0)
    case NoValue => 1
    case Reads(_, span) => SpanWithin(span, |s|)
    case Refused(span) => SpanWithin(span, |s|)
  }

  function Flows(es: seq<Props>): (r: seq<View>)
    ensures |r| == |es| && forall k | 0 <= k < |r| :: r[k] == FlowLine(es[k])
  {
    seq(|es|, k requires 0 <= k < |es| => FlowLine(es[k]))
  }

  /** A line that is a fault under `edges:`. */
  const FAULT: View := Other(None, None, None, None, false)

  function ValueMarks(value: InlineEdges): seq<View> {
    match value
    case NoValue => []
    case Reads(es, _) => Flows(es)
    case Refused(_) => [FAULT]
  }

  /** The first line, and its value if it carries one. */
  function FirstMarks(reader: Reader, s: seq<Text>): (r: seq<View>)
    requires s != []
    ensures r != [] && r[0] == ViewOf(s[0])
  {
    [ViewOf(s[0])] + ValueMarks(InlineAt(reader, s, 0))
  }

  /** The lines as the lexer takes them, every inline value written out as flow edges. */
  function Marks(reader: Reader, s: seq<Text>): seq<View>
    decreases |s|
  {
    if s == [] then [] else FirstMarks(reader, s) + Marks(reader, s[Width(reader, s)..])
  }

  // ---------- the lexer is their run ----------

  lemma {:induction false} FlowsRun(c: Core, es: seq<Props>)
    requires c.mode == UnderEdges(None)
    ensures CoreRun(c, Flows(es)) == c.(edges := c.edges + es)
    decreases |es|
  {
    if es == [] {
      assert c.edges + es == c.edges;
    } else {
      var d := CoreStep(c, FlowLine(es[0]));
      assert Flows(es)[0] == FlowLine(es[0]) && Flows(es)[1..] == Flows(es[1..]);
      FlowsRun(d, es[1..]);
      assert c.edges + [es[0]] + es[1..] == c.edges + es;
    }
  }

  lemma FromHere(reader: Reader, lines: seq<Text>, i: nat)
    requires i < |lines|
    ensures lines[i..][0] == lines[i] && InlineAt(reader, lines[i..], 0) == InlineAt(reader, lines, i)
  {
    hide ViewOf;
    assert lines[i..][0..] == lines[i..];
  }

  lemma EdgesHeader(c: Core, raw: Text)
    ensures CoreStep(c, KeyLine(EDGES, raw)).mode == UnderEdges(None)
  {
    hide Complete;
  }

  lemma TurnIsMarks(reader: Reader, lines: seq<Text>, i: nat, x: Lex)
    requires i < |lines|
    ensures var (y, j) := Turn(reader, lines, i, x);
            j == i + Width(reader, lines[i..]) && CoreOf(y) == CoreRun(CoreOf(x), FirstMarks(reader, lines[i..]))
  {
    hide Step, ViewOf, CoreStep, CoreRun, Trim;
    var v, value := ViewOf(lines[i]), InlineAt(reader, lines, i);
    var z, d := Step(x, i, v), CoreStep(CoreOf(x), v);
    FromHere(reader, lines, i);
    StepIsCore(x, i, v);
    RunConcat(CoreOf(x), [v], ValueMarks(value));
    OneStep(CoreOf(x), v);
    match value
    case NoValue => NoLines(d);
    case Reads(es, span) =>
      EdgesHeader(CoreOf(x), v.raw);
      FlowsRun(d, es);
      var j := i + SpanWithin(span, |lines| - i);
      assert PropsIn(z.edges + PlaceAll(es, i, j)) == PropsIn(z.edges) + es;
    case Refused(_) =>
      EdgesHeader(CoreOf(x), v.raw);
      OneStep(d, FAULT);
      FaultMark(d);
  }

  lemma NoLines(c: Core)
    ensures CoreRun(c, []) == c
  {
  }

  lemma FaultMark(c: Core)
    requires c.mode == UnderEdges(None)
    ensures CoreStep(c, FAULT) == c.(faulty := true)
  {
  }

  lemma {:induction false} LexIsMarksRun(reader: Reader, lines: seq<Text>, i: nat, x: Lex)
    requires i <= |lines|
    ensures CoreOf(LexFrom(reader, lines, i, x)) == CoreFlush(CoreRun(CoreOf(x), Marks(reader, lines[i..])))
    decreases |lines| - i
  {
    hide Turn, Flush, CoreFlush, CoreStep, CoreRun, CoreOf, ViewOf, InlineAt, FirstMarks, Width;
    if i == |lines| {
      AtEnd(reader, lines, x);
      FlushIsCore(x, i);
      NoLines(CoreOf(x));
    } else {
      var (y, j) := Turn(reader, lines, i, x);
      var s := lines[i..];
      TurnIsMarks(reader, lines, i, x);
      TurnOf(reader, lines, i, x);
      LexIsMarksRun(reader, lines, j, y);
      assert s[Width(reader, s)..] == lines[j..];
      RunConcat(CoreOf(x), FirstMarks(reader, s), Marks(reader, lines[j..]));
    }
  }

  /** Whatever values its headers carry, fields, edges and faults of a block are those of its marks. */
  lemma LexedIsMarksOutcome(reader: Reader, lines: seq<Text>)
    ensures CoreOf(Lexed(reader, lines)) == Outcome(Marks(reader, lines))
  {
    hide CoreRun, CoreFlush, LexFrom, Marks;
    LexIsMarksRun(reader, lines, 0, EMPTY);
    assert lines[0..] == lines;
    StartIsEmpty();
  }

  // ---------- where a block may be cut ----------

  /** Reading on from here does not change what stands before. */
  ghost predicate Splits(reader: Reader, a: seq<Text>) {
    forall t :: Marks(reader, a + t) == Marks(reader, a) + Marks(reader, t)
  }

  lemma NothingSplits(reader: Reader)
    ensures Splits(reader, []) && Marks(reader, []) == []
  {
    hide FirstMarks, Width;
    forall t
      ensures Marks(reader, [] + t) == Marks(reader, []) + Marks(reader, t)
    {
      assert [] + t == t;
    }
  }

  /** The first line's marks do not depend on what follows its value, unless that runs to the end. */
  lemma HeadAlone(reader: Reader, s: seq<Text>, t: seq<Text>)
    requires Local(reader) && s != []
    requires InlineAt(reader, s, 0).NoValue? || (InlineAt(reader, s, 0).Reads? && Width(reader, s) < |s|)
    ensures Marks(reader, s[..Width(reader, s)] + t) == FirstMarks(reader, s) + Marks(reader, t)
  {
    hide ViewOf, Trim, Marks;
    var w := Width(reader, s);
    var u := s[..w] + t;
    assert s[0..] == s && u[0..] == u && u[0] == s[0];
    assert Settled(reader, s, t);
    if InlineAt(reader, s, 0).NoValue? {
      assert s == [s[0]] + s[1..] && u == [s[0]] + t;
    }
    assert InlineAt(reader, u, 0) == InlineAt(reader, s, 0) && Width(reader, u) == w;
    assert u[w..] == t;
    MarksOf(reader, u);
  }

  lemma MarksOf(reader: Reader, s: seq<Text>)
    requires s != []
    ensures Marks(reader, s) == FirstMarks(reader, s) + Marks(reader, s[Width(reader, s)..])
  {
    hide FirstMarks, Width;
  }

  /** A block may be cut after every line the lexer turns to but one: the last, with a value on it. */
  lemma SplitsOn(reader: Reader, a: seq<Text>, s: seq<Text>)
    requires Local(reader) && Splits(reader, a) && s != []
    requires InlineAt(reader, s, 0).NoValue? || (InlineAt(reader, s, 0).Reads? && Width(reader, s) < |s|)
    ensures var head := s[..Width(reader, s)];
            Splits(reader, a + head) && Marks(reader, a + head) == Marks(reader, a) + FirstMarks(reader, s)
  {
    hide Marks, FirstMarks, Width, InlineAt, Local;
    var head := s[..Width(reader, s)];
    HeadAlone(reader, s, []);
    NothingSplits(reader);
    assert head + [] == head;
    assert Marks(reader, a + head) == Marks(reader, a) + Marks(reader, head);
    forall t
      ensures Marks(reader, (a + head) + t) == Marks(reader, a + head) + Marks(reader, t)
    {
      HeadAlone(reader, s, t);
      assert (a + head) + t == a + (head + t);
    }
  }

  /** Line `i` may be cut at, and is mark `p`. */
  ghost predicate Stands(reader: Reader, lines: seq<Text>, i: nat, p: nat) {
    i <= |lines| && Splits(reader, lines[..i]) && |Marks(reader, lines[..i])| == p
  }

  lemma StandsSplit(reader: Reader, lines: seq<Text>, i: nat, p: nat)
    requires Stands(reader, lines, i, p)
    ensures Marks(reader, lines) == Marks(reader, lines[..i]) + Marks(reader, lines[i..])
    ensures p <= |Marks(reader, lines)|
    ensures Marks(reader, lines)[..p] == Marks(reader, lines[..i]) && Marks(reader, lines)[p..] == Marks(reader, lines[i..])
  {
    hide Marks;
    assert lines == lines[..i] + lines[i..];
  }

  lemma MarksGrow(reader: Reader, s: seq<Text>)
    requires s != []
    ensures |Marks(reader, s)| > 0
  {
    hide FirstMarks, Width;
  }

  /** Marks are in the order of their lines. */
  lemma StandsInOrder(reader: Reader, lines: seq<Text>, i: nat, p: nat, j: nat, q: nat)
    requires Stands(reader, lines, i, p) && Stands(reader, lines, j, q)
    ensures p <= q <==> i <= j
  {
    hide Marks;
    if i < j {
      assert lines[..j] == lines[..i] + lines[i..j];
      MarksGrow(reader, lines[i..j]);
    } else if j < i {
      assert lines[..i] == lines[..j] + lines[j..i];
      MarksGrow(reader, lines[j..i]);
    }
  }

  lemma MarksFollow(reader: Reader, lines: seq<Text>, i: nat, p: nat, t: seq<Text>)
    requires Stands(reader, lines, i, p)
    ensures Marks(reader, lines[..i] + t) == Marks(reader, lines[..i]) + Marks(reader, t)
  {
    hide Marks;
  }

  /** Cutting lines out is cutting their marks out. */
  lemma MarksCut(reader: Reader, lines: seq<Text>, i: nat, p: nat, j: nat, q: nat)
    requires Stands(reader, lines, i, p) && Stands(reader, lines, j, q) && p <= q
    ensures i <= j <= |lines| && q <= |Marks(reader, lines)|
    ensures Marks(reader, Cut(lines, i, j)) == Marks(reader, lines)[..p] + Marks(reader, lines)[q..]
  {
    hide Marks, Splits;
    StandsInOrder(reader, lines, i, p, j, q);
    StandsSplit(reader, lines, i, p);
    StandsSplit(reader, lines, j, q);
    MarksFollow(reader, lines, i, p, lines[j..]);
  }

  lemma StandsBefore(reader: Reader, lines: seq<Text>, other: seq<Text>, i: nat, p: nat)
    requires Stands(reader, lines, i, p) && i <= |other| && other[..i] == lines[..i]
    ensures Stands(reader, other, i, p)
  {
  }

  /** A new header that is no `edges:` key is one mark more. */
  lemma MarksInsert(reader: Reader, lines: seq<Text>, i: nat, p: nat, line: Text)
    requires Stands(reader, lines, i, p) && IsHeader(ViewOf(line)) && ViewOf(line).key != EDGES
    ensures p <= |Marks(reader, lines)|
    ensures Marks(reader, Inserted(lines, i, line)) == Marks(reader, lines)[..p] + [ViewOf(line)] + Marks(reader, lines)[p..]
  {
    hide ViewOf, Marks;
    StandsSplit(reader, lines, i, p);
    var rest := [line] + lines[i..];
    assert Inserted(lines, i, line) == lines[..i] + rest;
    MarksOf(reader, rest);
    assert rest[1..] == lines[i..];
    assert FirstMarks(reader, rest) == [ViewOf(line)];
  }

  // ---------- entries and their marks ----------

  /** The entry, and the one the marks alone would give: they begin together, and end together unless a
      value stands between. */
  ghost predicate EntryAlike(reader: Reader, lines: seq<Text>, e: Entry, f: Entry) {
    && e.kind == f.kind && e.key == f.key
    && Stands(reader, lines, e.start, f.start)
    && (e.kind != EdgesEntry ==> Stands(reader, lines, e.end, f.end))
  }

  ghost predicate EntriesAlike(reader: Reader, lines: seq<Text>, es: seq<Entry>, fs: seq<Entry>) {
    |es| == |fs| && forall k | 0 <= k < |es| :: EntryAlike(reader, lines, es[k], fs[k])
  }

  ghost predicate Alike(reader: Reader, lines: seq<Text>, x: Lex, m: Lex) {
    && ModeCore(x.mode) == ModeCore(m.mode)
    && EntriesAlike(reader, lines, x.entries, m.entries)
    && (x.mode.InEdges? ==> x.entries != [] && x.entries[|x.entries| - 1].kind == EdgesEntry)
  }

  function KindOf(v: View): EntryKind {
    match v
    case ListLine(_, _) => ListEntry
    case KeyLine(k, raw) => if k == EDGES then EdgesEntry else if IsListField(k) && Trim(raw) == [] then ListEntry else ScalarEntry
    case _ => ScalarEntry
  }

  /** The line makes the open entry reach it. */
  predicate Extends(m: CoreMode, v: View) {
    match v
    case FlowLine(_) => m.UnderEdges?
    case Other(open, cont, item, folded, blank) =>
      (match m
       case UnderEdges(buf) => open.Some? || (buf.Some? && cont.Some?) || blank
       case Lists(_) => item.Some?
       case Folds(_, _) => folded.Some?
       case Nothing => false)
    case _ => false
  }

  lemma EntriesAfter(x: Lex, i: nat, v: View)
    ensures Step(x, i, v).entries
         == if IsHeader(v) then x.entries + [Entry(KindOf(v), v.key, i, i + 1, false)]
            else if Extends(ModeCore(x.mode), v) then ExtendTo(x.entries, i)
            else x.entries
  {
    hide Complete, Put, ScalarValue, Trim, IsListField, QuoteOpen, TextOf, ItemsOf, ExtendTo;
    var f := Flush(x, i);
    assert f.entries == x.entries;
  }

  lemma StepMode(x: Lex, i: nat, m: Lex, p: nat, v: View)
    requires ModeCore(x.mode) == ModeCore(m.mode)
    ensures ModeCore(Step(x, i, v).mode) == ModeCore(Step(m, p, v).mode)
  {
    hide Complete, Put, ScalarValue, Trim, IsListField, QuoteOpen, TextOf, ItemsOf, ExtendTo;
  }

  lemma StepInEdges(x: Lex, i: nat, v: View)
    ensures Step(x, i, v).mode.InEdges? <==> if IsHeader(v) then KindOf(v) == EdgesEntry else x.mode.InEdges?
  {
    hide Complete, Put, ScalarValue, Trim, IsListField, QuoteOpen, TextOf, ItemsOf, ExtendTo;
  }

  /** One line of one mark keeps them alike. */
  lemma StepAlike(reader: Reader, lines: seq<Text>, x: Lex, i: nat, m: Lex, p: nat, v: View)
    requires Alike(reader, lines, x, m) && Stands(reader, lines, i, p) && Stands(reader, lines, i + 1, p + 1)
    ensures Alike(reader, lines, Step(x, i, v), Step(m, p, v))
  {
    hide Stands, Step, Extends, KindOf;
    EntriesAfter(x, i, v);
    EntriesAfter(m, p, v);
    StepMode(x, i, m, p, v);
    StepInEdges(x, i, v);
  }

  lemma FlowStep(m: Lex, p: nat, props: Props)
    requires m.mode == InEdges(None) && m.entries != [] && m.entries[|m.entries| - 1].kind == EdgesEntry
    ensures var n := Step(m, p, FlowLine(props)); n.mode == InEdges(None) && n.entries == ExtendTo(m.entries, p)
  {
  }

  /** The flow edges a value stands for keep them alike: they reach the `edges:` entry alone. */
  lemma {:induction false} FlowsAlike(reader: Reader, lines: seq<Text>, es: seq<Entry>, vs: seq<View>, p: nat, q: nat)
    requires p <= q <= |vs| && forall k | p <= k < q :: vs[k].FlowLine?
    requires EntriesAlike(reader, lines, es, Before(vs, p).entries) && Before(vs, p).mode == InEdges(None)
    requires es != [] && es[|es| - 1].kind == EdgesEntry
    ensures EntriesAlike(reader, lines, es, Before(vs, q).entries) && Before(vs, q).mode == InEdges(None)
    decreases q - p
  {
    hide Stands, Step;
    if p < q {
      FlowsAlike(reader, lines, es, vs, p, q - 1);
      FlowStep(Before(vs, q - 1), q - 1, vs[q - 1].props);
    }
  }

  // ---------- through the whole block ----------

  /** A fault met on the way is a fault of the block. */
  lemma RefusedIsFault(reader: Reader, lines: seq<Text>, i: nat, x: Lex)
    requires i < |lines| && InlineAt(reader, lines, i).Refused?
    ensures LexFrom(reader, lines, i, x).faults != []
  {
    hide Step, ViewOf, CoreStep, CoreFlush, CoreRun, InlineAt, LexFrom;
    var s := lines[i..];
    var v := ViewOf(lines[i]);
    var c := CoreStep(CoreOf(x), v);
    FromHere(reader, lines, i);
    RefusedHeader(reader, lines, i);
    EdgesHeader(CoreOf(x), v.raw);
    FaultMark(c);
    OneStep(CoreOf(x), v);
    OneStep(c, FAULT);
    RunConcat(CoreOf(x), [v], [FAULT]);
    LexIsMarksRun(reader, lines, i, x);
    MarksOf(reader, s);
    RunConcat(CoreOf(x), FirstMarks(reader, s), Marks(reader, s[Width(reader, s)..]));
    FaultStaysInRun(CoreStep(c, FAULT), Marks(reader, s[Width(reader, s)..]));
  }

  lemma RefusedHeader(reader: Reader, lines: seq<Text>, i: nat)
    requires i < |lines| && !InlineAt(reader, lines, i).NoValue?
    ensures ViewOf(lines[i]).KeyLine? && ViewOf(lines[i]).key == EDGES
  {
    hide ViewOf, Trim;
  }

  ghost predicate HasEdgesKey(entries: seq<Entry>) {
    exists k :: 0 <= k < |entries| && entries[k].kind == EdgesEntry
  }

  /** Where the lexer's entries stand against those of the marks, from any line it turns to. */
  lemma {:induction false} EntriesKeepAlike(reader: Reader, lines: seq<Text>, i: nat, p: nat, x: Lex)
    requires Local(reader) && Stands(reader, lines, i, p) && p <= |Marks(reader, lines)|
    requires Alike(reader, lines, x, Before(Marks(reader, lines), p)) && LexFrom(reader, lines, i, x).faults == []
    ensures EntriesAlike(reader, lines, LexFrom(reader, lines, i, x).entries, Before(Marks(reader, lines), |Marks(reader, lines)|).entries)
    ensures HasEdgesKey(LexFrom(reader, lines, i, x).entries) || Stands(reader, lines, |lines|, |Marks(reader, lines)|)
    decreases |lines| - i
  {
    hide Turn, Step, ViewOf, InlineAt, FirstMarks, Width, Marks, Before, Alike, Stands, EntriesAlike, Local, Flush;
    if i == |lines| {
      AlikeAtEnd(reader, lines, p, x);
    } else {
      TurnOf(reader, lines, i, x);
      if InlineAt(reader, lines, i).Refused? {
        RefusedIsFault(reader, lines, i, x);
      } else if InlineAt(reader, lines, i).NoValue? {
        var v := ViewOf(lines[i]);
        PlainTurnAlike(reader, lines, i, p, x);
        EntriesKeepAlike(reader, lines, i + 1, p + 1, Step(x, i, v));
      } else {
        ValueTurnAlike(reader, lines, i, p, x);
        var (y, j) := Turn(reader, lines, i, x);
        if j < |lines| {
          var q := |Marks(reader, lines[..j])|;
          EntriesKeepAlike(reader, lines, j, q, y);
        } else {
          AtEnd(reader, lines, y);
          FlushedEntries(y, j);
          AlikeEntries(reader, lines, y, Before(Marks(reader, lines), |Marks(reader, lines)|));
        }
      }
    }
  }

  lemma FlushedEntries(x: Lex, i: nat)
    ensures Flush(x, i).entries == x.entries
  {
  }

  lemma AlikeEntries(reader: Reader, lines: seq<Text>, x: Lex, m: Lex)
    requires Alike(reader, lines, x, m)
    ensures EntriesAlike(reader, lines, x.entries, m.entries)
  {
  }

  lemma AlikeAtEnd(reader: Reader, lines: seq<Text>, p: nat, x: Lex)
    requires Stands(reader, lines, |lines|, p) && p <= |Marks(reader, lines)|
    requires Alike(reader, lines, x, Before(Marks(reader, lines), p))
    ensures p == |Marks(reader, lines)|
    ensures EntriesAlike(reader, lines, LexFrom(reader, lines, |lines|, x).entries, Before(Marks(reader, lines), p).entries)
  {
    hide Flush, Before, EntriesAlike, LexFrom, Marks;
    AtEnd(reader, lines, x);
    FlushedEntries(x, |lines|);
    assert lines[..|lines|] == lines;
  }

  lemma PlainTurnAlike(reader: Reader, lines: seq<Text>, i: nat, p: nat, x: Lex)
    requires Local(reader) && i < |lines| && Stands(reader, lines, i, p) && p <= |Marks(reader, lines)|
    requires Alike(reader, lines, x, Before(Marks(reader, lines), p)) && InlineAt(reader, lines, i).NoValue?
    ensures Turn(reader, lines, i, x) == (Step(x, i, ViewOf(lines[i])), i + 1)
    ensures Stands(reader, lines, i + 1, p + 1) && p + 1 <= |Marks(reader, lines)|
    ensures Alike(reader, lines, Step(x, i, ViewOf(lines[i])), Before(Marks(reader, lines), p + 1))
  {
    hide Step, ViewOf, Marks, Alike, Local, Splits, CoreOf, CoreRun, InlineAt;
    var vs, s := Marks(reader, lines), lines[i..];
    FromHere(reader, lines, i);
    StandsSplit(reader, lines, i, p);
    MarksOf(reader, s);
    SplitsOn(reader, lines[..i], s);
    assert lines[..i] + s[..1] == lines[..i + 1];
    assert vs[p] == vs[p..][0];
    StepAlike(reader, lines, x, i, Before(vs, p), p, vs[p]);
  }

  lemma ValueTurnAlike(reader: Reader, lines: seq<Text>, i: nat, p: nat, x: Lex)
    requires Local(reader) && i < |lines| && Stands(reader, lines, i, p) && p <= |Marks(reader, lines)|
    requires Alike(reader, lines, x, Before(Marks(reader, lines), p)) && InlineAt(reader, lines, i).Reads?
    ensures var vs := Marks(reader, lines);
            var (y, j) := Turn(reader, lines, i, x);
            var q := if j < |lines| then |Marks(reader, lines[..j])| else |vs|;
            && HasEdgesKey(y.entries) && q <= |vs| && (j < |lines| ==> Stands(reader, lines, j, q))
            && Alike(reader, lines, y, Before(vs, q))
  {
    hide Step, ViewOf, Marks, Splits, CoreOf, CoreRun, InlineAt, Stands, Before, EntriesAlike, Alike, Local;
    var vs, s := Marks(reader, lines), lines[i..];
    var v, es := ViewOf(lines[i]), InlineAt(reader, lines, i).edges;
    var (y, j) := Turn(reader, lines, i, x);
    var next, q := p + 1, p + 1 + |es|;
    FromHere(reader, lines, i);
    RefusedHeader(reader, lines, i);
    StandsSplit(reader, lines, i, p);
    MarksOf(reader, s);
    assert vs[p..] == FirstMarks(reader, s) + Marks(reader, s[Width(reader, s)..]);
    assert vs[p..q] == vs[p..][..q - p] == FirstMarks(reader, s);
    assert vs[p] == vs[p..q][0] == v;
    forall k | next <= k < q
      ensures vs[k].FlowLine?
    {
      assert vs[k] == vs[p..q][k - p];
    }
    HeaderTurn(reader, lines, i, x);
    HeaderMark(vs, p);
    HeaderAlike(reader, lines, x, y, Before(vs, p), Before(vs, next), i, p);
    FlowsAlike(reader, lines, y.entries, vs, next, q);
    AlikeFrom(reader, lines, y, Before(vs, q));
    if j < |lines| {
      StandsNext(reader, lines, i, p);
    } else {
      EndReached(reader, lines, i);
    }
  }

  /** The value runs to the last line. */
  lemma EndReached(reader: Reader, lines: seq<Text>, i: nat)
    requires i < |lines| && Width(reader, lines[i..]) == |lines| - i
    ensures Marks(reader, lines[i..][Width(reader, lines[i..])..]) == []
  {
    hide FirstMarks, Width;
  }

  lemma StandsNext(reader: Reader, lines: seq<Text>, i: nat, p: nat)
    requires Local(reader) && i < |lines| && Stands(reader, lines, i, p)
    requires InlineAt(reader, lines, i).Reads? && i + Width(reader, lines[i..]) < |lines|
    ensures var j := i + Width(reader, lines[i..]);
            Stands(reader, lines, j, p + |FirstMarks(reader, lines[i..])|)
            && |Marks(reader, lines[..j])| == p + |FirstMarks(reader, lines[i..])|
  {
    hide Marks, FirstMarks, Width, InlineAt, Local, Splits, ViewOf, ValueMarks;
    var s := lines[i..];
    var j := i + Width(reader, s);
    FromHere(reader, lines, i);
    SplitsOn(reader, lines[..i], s);
    assert lines[..i] + s[..j - i] == lines[..j];
  }

  /** What a header with a value does to the entries. */
  lemma HeaderTurn(reader: Reader, lines: seq<Text>, i: nat, x: Lex)
    requires i < |lines| && InlineAt(reader, lines, i).Reads?
    requires ViewOf(lines[i]).KeyLine? && ViewOf(lines[i]).key == EDGES
    ensures var (y, j) := Turn(reader, lines, i, x);
            && j == i + Width(reader, lines[i..])
            && y.mode == InEdges(None) && y.entries == x.entries + [Entry(EdgesEntry, EDGES, i, j, true)]
  {
    hide ViewOf, InlineAt, Trim, Complete, Step;
    FromHere(reader, lines, i);
    HeaderStep(x, i, ViewOf(lines[i]).raw);
    var e := Entry(EdgesEntry, EDGES, i, i + 1, false);
    assert (x.entries + [e])[..|x.entries|] == x.entries;
  }

  lemma HeaderStep(x: Lex, i: nat, raw: Text)
    ensures var z := Step(x, i, KeyLine(EDGES, raw));
            z.mode == InEdges(None) && z.entries == x.entries + [Entry(EdgesEntry, EDGES, i, i + 1, false)]
  {
    hide Complete, Trim;
    var f := Flush(x, i);
    assert f.entries == x.entries;
  }

  lemma HeaderMark(vs: seq<View>, p: nat)
    requires p < |vs| && vs[p].KeyLine? && vs[p].key == EDGES
    ensures var m, n := Before(vs, p), Before(vs, p + 1);
            n.mode == InEdges(None) && n.entries == m.entries + [Entry(EdgesEntry, EDGES, p, p + 1, false)]
  {
    hide Step;
    HeaderStep(Before(vs, p), p, vs[p].raw);
  }

  lemma HeaderAlike(reader: Reader, lines: seq<Text>, x: Lex, y: Lex, m: Lex, n: Lex, i: nat, p: nat)
    requires Alike(reader, lines, x, m) && Stands(reader, lines, i, p)
    requires |y.entries| == |x.entries| + 1 && y.entries[..|x.entries|] == x.entries
    requires y.entries[|x.entries|].kind == EdgesEntry && y.entries[|x.entries|].key == EDGES && y.entries[|x.entries|].start == i
    requires n.entries == m.entries + [Entry(EdgesEntry, EDGES, p, p + 1, false)]
    ensures EntriesAlike(reader, lines, y.entries, n.entries)
    ensures y.entries != [] && y.entries[|y.entries| - 1].kind == EdgesEntry && HasEdgesKey(y.entries)
  {
    hide Stands;
    forall k | 0 <= k < |y.entries|
      ensures EntryAlike(reader, lines, y.entries[k], n.entries[k])
    {
      if k < |x.entries| {
        assert y.entries[k] == x.entries[k];
        assert EntryAlike(reader, lines, x.entries[k], m.entries[k]);
      }
    }
  }

  lemma AlikeFrom(reader: Reader, lines: seq<Text>, y: Lex, m: Lex)
    requires y.mode == InEdges(None) && m.mode == InEdges(None) && EntriesAlike(reader, lines, y.entries, m.entries)
    requires y.entries != [] && y.entries[|y.entries| - 1].kind == EdgesEntry
    ensures Alike(reader, lines, y, m)
  {
    hide EntriesAlike;
  }

  /** Every entry of the block stands where the run of its marks puts it. */
  lemma {:induction false} LexedAlike(reader: Reader, lines: seq<Text>)
    requires Local(reader) && Lexed(reader, lines).faults == []
    ensures var vs, entries := Marks(reader, lines), Lexed(reader, lines).entries;
            EntriesAlike(reader, lines, entries, Before(vs, |vs|).entries)
            && (HasEdgesKey(entries) || Stands(reader, lines, |lines|, |vs|))
  {
    hide LexFrom, Marks, EntriesAlike, Local;
    NothingSplits(reader);
    assert lines[..0] == [];
    StartAlike(reader, lines);
    EntriesKeepAlike(reader, lines, 0, 0, EMPTY);
  }

  lemma StartAlike(reader: Reader, lines: seq<Text>)
    ensures Alike(reader, lines, EMPTY, Before(Marks(reader, lines), 0))
  {
    hide Marks;
  }

  // ---------- what marks are seen as ----------

  lemma LineIsSeen(line: Text)
    ensures Seen(ViewOf(line))
  {
    hide IsListField, FlowEdge, BlockOpen, BlockCont, ListItem, IsBlankOrComment;
    EdgesIsNoList();
  }

  lemma EdgesIsNoList()
    ensures !IsListField(EDGES)
  {
    forall i | 0 <= i < |LIST_FIELDS|
      ensures !SameText(EDGES, LIST_FIELDS[i])
    {
      assert |LIST_FIELDS[i]| == 5 ==> LIST_FIELDS[i][0] == 's' || LIST_FIELDS[i][0] == 'r';
    }
  }

  lemma {:induction false} MarksAreSeen(reader: Reader, s: seq<Text>)
    ensures AllSeen(Marks(reader, s))
    decreases |s|
  {
    hide Width, ViewOf, Seen, InlineAt;
    if s != [] {
      MarksAreSeen(reader, s[Width(reader, s)..]);
      LineIsSeen(s[0]);
      ValueIsSeen(InlineAt(reader, s, 0));
    }
  }

  lemma ValueIsSeen(value: InlineEdges)
    ensures AllSeen(ValueMarks(value))
  {
  }
}
