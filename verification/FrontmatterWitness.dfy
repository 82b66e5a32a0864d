/** On the lines themselves: inline edges that do not outlive their rewriting to block form, and a key's cut that takes
    one edge and lets another in (`lib/kernel/frontmatter.js`). */
module FrontmatterWitness {
  import opened Common
  import opened ContentText
  import opened FrontmatterScalar
  import opened FrontmatterLines
  import opened FrontmatterLexer
  import opened FrontmatterRoundTrip
  import opened FrontmatterCore
  import opened FrontmatterCut
  import opened FrontmatterRewrite
  import opened FrontmatterEdit
  import opened FrontmatterExpand
  import opened FrontmatterMarks
  import opened FrontmatterRanges
  import opened FrontmatterInline
  import FrontmatterKeyEdit

  const A: Text := [0x61]
  const B: Text := [0x62]
  const N: Text := [0x6E]
  const P: Text := [0x70]
  const X: Text := [0x78]
  const Y: Text := [0x79]

  /** One `edges:` header with a value on its line. */
  function Header(value: Text): seq<Text> {
    [KeyText(EDGES, value)]
  }

  /** A list on the line of its header, without a comment. */
  predicate OnItsLine(value: Text) {
    |value| > 2 && Starts(value, LBRACKET) && Ends(value, RBRACKET) && OneLine(value) && HASH !in value
  }

  lemma EdgesIsKey()
    ensures IsKey(EDGES)
  {
  }

  /** A header whose value reads as one edge is that edge, and is rewritten to its lines. */
  lemma HeaderReads(reader: Reader, value: Text, props: Props)
    requires OnItsLine(value) && reader.read(Header(value)) == Reads([props], 1)
    ensures var lex := Lexed(reader, Header(value));
            lex.faults == [] && lex.fields == [] && lex.edges == [Placed(props, Inline, 0, 1)]
    ensures Expanded(reader, Header(value), 0) == [EDGES + [COLON]] + EdgeLines(EdgeOf(props))
  {
    hide InlineList, KeyValue, KeyText, EdgeLines, EdgeOf, IsKey;
    EdgesIsKey();
    var lines := Header(value);
    HeaderSeen(value);
    assert lines[0..] == lines;
    assert InlineAt(reader, lines, 0) == Reads([props], 1);
    TurnOf(reader, lines, 0, EMPTY);
    AtEnd(reader, lines, Turn(reader, lines, 0, EMPTY).0);
    assert AllEdgeLines(EdgesOf([props])) == EdgeLines(EdgeOf(props)) + AllEdgeLines(EdgesOf([props])[1..]);
  }

  lemma HeaderSeen(value: Text)
    requires OnItsLine(value)
    ensures ViewOf(KeyText(EDGES, value)) == KeyLine(EDGES, value) && Trim(value) != []
  {
    hide KeyValue;
    EdgesIsKey();
    KeyTextReads(EDGES, value);
    TrimOfInk(value);
    EdgesIsNoList();
  }

  /** What such a header is read as once rewritten. */
  lemma OneEdgeComesTo(reader: Reader, value: Text, props: Props)
    requires OnItsLine(value) && reader.read(Header(value)) == Reads([props], 1) && Steady(reader) && Shaped(props)
    ensures var e := Rewritten(EdgeOf(props));
            var now := Lexed(reader, Expanded(reader, Header(value), 0));
            (now.faults == [] <==> !e.faulty) && (!e.faulty ==> PropsIn(now.edges) == e.edges)
  {
    hide Lexed, Expanded, AllBare, Steady, Shaped, Rewritten, EdgeOf, OnItsLine, Header;
    HeaderReads(reader, value, props);
    ExpansionComesTo(reader, Header(value));
    var e := Placed(props, Inline, 0, 1);
    assert [e][1..] == [] && Written(e) + [] == Written(e);
    assert AsWritten([e]) == Written(e);
    assert Broken([e]) <==> Breaks([e][0]);
  }

  /** The edge from `a` to `b`, with one attribute. */
  function Noted(n: Text): Props {
    [(TYPE, A), (TO, B), (N, n)]
  }

  lemma NotedShape(n: Text)
    requires IsText(n)
    ensures Shaped(Noted(n)) && EdgeOf(Noted(n)) == Edge(A, B, [(N, n)]) && WellRead(EdgeOf(Noted(n)))
    ensures TailOf(EdgeOf(Noted(n))) == [(TO, B)] + Nonempty([(N, n)])
    ensures Nonempty([(N, n)]) == if n == [] then [] else [(N, n)]
  {
    var p := Noted(n);
    var q, r := p[1..], p[1..][1..];
    assert q[0] == (TO, B) && r == [(N, n)] && r[1..] == [];
    assert TYPE != TO && N != TYPE && N != TO;
    assert Attributes([]) == [];
    assert Attributes(r) == r;
    assert Attributes(q) == [] + r;
    assert Attributes(p) == [] + Attributes(q);
    assert Lookup<Text>(q, TO) == Some(B) && Lookup<Text>(p, TYPE) == Some(A);
  }

  /** `[{"type": "a", "to": "b", "n": "`. */
  const NOTE_OPENS: Text := [
    0x5B, 0x7B, 0x22, 0x74, 0x79, 0x70, 0x65, 0x22, 0x3A, 0x20, 0x22, 0x61, 0x22, 0x2C, 0x20, 0x22, 0x74, 0x6F,
    0x22, 0x3A, 0x20, 0x22, 0x62, 0x22, 0x2C, 0x20, 0x22, 0x6E, 0x22, 0x3A, 0x20, 0x22]

  /** `"}]`. */
  const NOTE_CLOSES: Text := [DQ, RBRACE, RBRACKET]

  /** The value of a header with that edge, its note as JSON writes it. */
  function JsonNote(written: Text): Text {
    NOTE_OPENS + written + NOTE_CLOSES
  }

  lemma NoteOpensOnALine()
    ensures NOTE_OPENS != [] && NOTE_OPENS[0] == LBRACKET && OneLine(NOTE_OPENS) && HASH !in NOTE_OPENS
  {
  }

  lemma JsonNoteIsOnItsLine(written: Text)
    requires OneLine(written) && HASH !in written
    ensures OnItsLine(JsonNote(written))
  {
    hide NOTE_OPENS;
    NoteOpensOnALine();
    OnOneLine(NOTE_OPENS, written);
    OnOneLine(NOTE_OPENS + written, NOTE_CLOSES);
    assert JsonNote(written)[0] == NOTE_OPENS[0];
  }

  lemma OnOneLine(a: Text, b: Text)
    requires OneLine(a) && OneLine(b)
    ensures OneLine(a + b)
  {
  }

  /** The header's value, as JSON. */
  function NotedJson(n: Text): Json {
    Array([Map([(TYPE, Flat(A)), (TO, Flat(B)), (N, Flat(n))])])
  }

  lemma {:induction false} NoComment(line: Text, spots: seq<Spot>)
    requires HASH !in line && Ascending(spots, 0, |line|)
    ensures CommentAt(line, spots) == |line|
  {
    if spots != [] {
      NoComment(line, spots[1..]);
    }
  }

  lemma ListAsItStands(value: Text)
    requires OnItsLine(value)
    ensures Trim(value) == value && StripComment(value) == value
  {
    hide SpotsFrom, CommentAt;
    TrimFixes(value);
    SpotsInOrder(value, 0, OPENING);
    NoComment(value, SpotsFrom(value, 0, OPENING));
    assert value[..|value|] == value;
  }

  lemma NotedMap(n: Text)
    requires IsText(n)
    ensures EdgeFromMap([(TYPE, Flat(A)), (TO, Flat(B)), (N, Flat(n))]) == Some(Noted(n))
  {
    hide Complete, IsKey;
    NoteIsKey();
    assert IsKey(TYPE) by { TypeIsKey(); }
    NotedShape(n);
    var ms := [(TYPE, Flat(A)), (TO, Flat(B)), (N, Flat(n))];
    PutNew([], TYPE, A);
    PutNew([(TYPE, A)], TO, B);
    PutNew([(TYPE, A), (TO, B)], N, n);
    assert TYPE != TARGET && TO != TARGET && N != TARGET;
    MembersGo([], ms);
    MembersGo([(TYPE, A)], ms[1..]);
    MembersGo([(TYPE, A), (TO, B)], ms[1..][1..]);
    assert ms[1..][1..][1..] == [];
    assert [] + [(TYPE, A)] == [(TYPE, A)] && [(TYPE, A)] + [(TO, B)] == [(TYPE, A), (TO, B)];
    assert [(TYPE, A), (TO, B)] + [(N, n)] == Noted(n);
  }

  lemma MembersGo(props: Props, members: Members)
    requires members != [] && IsKey(members[0].0) && members[0].0 != TARGET && members[0].1.Flat?
    ensures PutMembers(props, members) == PutMembers(Put(props, members[0].0, members[0].1.text), members[1..])
  {
    hide IsKey, Put;
  }

  lemma PutNew(props: Props, k: Text, v: Text)
    requires forall i | 0 <= i < |props| :: props[i].0 != k
    ensures Put<Text>(props, k, v) == props + [(k, v)]
  {
    PutAppends(props, k, v);
  }

  /** The header reads as that one edge. */
  lemma NotedReads(json: Text -> Json, value: Text, n: Text)
    requires OnItsLine(value) && IsText(n) && json(value) == NotedJson(n)
    ensures FlowReader(json).read(Header(value)) == Reads([Noted(n)], 1) && Steady(FlowReader(json))
  {
    hide Noted, EdgeFromMap, Trim, StripComment, FlowClosed, ViewOf, OnItsLine, KeyText;
    FlowReaderIsLocal(json);
    LocalIsSteady(FlowReader(json));
    HeaderSeen(value);
    ListAsItStands(value);
    ListShape(value);
    NotedMap(n);
    var items := [Map([(TYPE, Flat(A)), (TO, Flat(B)), (N, Flat(n))])];
    assert items[1..] == [] && EdgesFromItems([]) == Some([]);
    assert [Noted(n)] + [] == [Noted(n)];
    assert EdgesFromItems(items) == Some([Noted(n)]);
  }

  lemma ListShape(value: Text)
    requires OnItsLine(value)
    ensures |value| > 2 && Starts(value, LBRACKET) && Ends(value, RBRACKET) && value != TILDE && value != NULL
  {
  }

  // ---------- an empty attribute ----------

  /** An attribute without text is left out: `n` is gone. */
  lemma EmptyAttributeIsDropped(json: Text -> Json)
    requires json(JsonNote([])) == NotedJson([])
    ensures var reader, lines := FlowReader(json), Header(JsonNote([]));
            var was, now := Lexed(reader, lines), Lexed(reader, Expanded(reader, lines, 0));
            && was.faults == [] && PropsIn(was.edges) == [Noted([])]
            && Expanded(reader, lines, 0) == [EDGES + [COLON], FlowText(A, B, [])]
            && now.faults == [] && PropsIn(now.edges) == [[(TYPE, A), (TO, B)]]
            && !AllKept(was, now)
  {
    hide Lexed, Expanded,  Header, Rewritten, OnItsLine, EdgeOf, FlowText, Shaped, WellRead, JsonNote, NotedJson, FlowReader;
    JsonNoteIsOnItsLine([]);
    NotedShape([]);
    var reader := FlowReader(json);
    NotedReads(json, JsonNote([]), []);
    HeaderReads(reader, JsonNote([]), Noted([]));
    OneEdgeComesTo(reader, JsonNote([]), Noted([]));
    NotedFlows([]);
    assert PropsIn(Lexed(reader, Expanded(reader, Header(JsonNote([])), 0)).edges) == [[(TYPE, A), (TO, B)]];
    NoNote([[(TYPE, A), (TO, B)]]);
  }

  lemma NotedFlows(n: Text)
    requires n == []
    ensures var e := Edge(A, B, [(N, n)]);
            EdgeLines(e) == [FlowText(A, B, [])] && !Rewritten(e).faulty && Rewritten(e).edges == [[(TYPE, A), (TO, B)]]
  {
    hide Rewritten, FlowText;
    var e := Edge(A, B, [(N, n)]);
    NotedShape(n);
    assert Flowable(e);
    FlowExactly(e);
    assert [(TYPE, e.kind)] + TailOf(e) == [(TYPE, A), (TO, B)];
  }

  lemma LookupNext(m: Props, k: Text)
    requires m != [] && m[0].0 != k
    ensures Lookup<Text>(m, k) == Lookup<Text>(m[1..], k)
  {
  }

  lemma LookupNote(rest: Props)
    ensures Lookup<Text>([(TYPE, A), (TO, B)] + rest, N) == Lookup<Text>(rest, N)
  {
    hide Lookup;
    var p := [(TYPE, A), (TO, B)] + rest;
    assert N != TYPE && N != TO;
    LookupNext(p, N);
    LookupNext(p[1..], N);
    assert p[1..][1..] == rest;
  }

  /** The edge with this note is not the edge with another one, or with none. */
  lemma OtherNote(n: Text, rest: Props)
    requires rest == [] || (rest[0].0 == N && rest[0].1 != n)
    ensures !SameProps([(TYPE, A), (TO, B)] + rest, Noted(n))
  {
    LookupNote(rest);
    LookupNote([(N, n)]);
    assert Noted(n) == [(TYPE, A), (TO, B)] + [(N, n)];
  }

  lemma NoNote(now: seq<Props>)
    requires now == [[(TYPE, A), (TO, B)]]
    ensures !SameEdges(now, [Noted([])])
  {
    OtherNote([], []);
    assert [(TYPE, A), (TO, B)] + [] == now[0];
  }

  // ---------- a line break ----------

  /** A value that is written as it stands. */
  predicate Plain(v: Text) {
    v != [] && OneLine(v) && !IsWhite(v[0]) && !IsWhite(v[|v| - 1]) && !IsQuote(v[0]) && !IsQuote(v[|v| - 1])
  }

  lemma PlainIsEmitted(v: Text, q: bool)
    requires Plain(v)
    ensures FoldLines(v) == v && EmitScalar(v, q) == v
  {
    hide FoldLines, Trim;
    FoldLinesFixes(v);
    TrimFixes(v);
  }

  lemma {:induction false} TrimStartWithin(t: Text, u: Unit)
    requires u !in t
    ensures u !in TrimStart(t)
  {
    if t != [] {
      TrimStartWithin(t[1..], u);
    }
  }

  lemma {:induction false} NoBrace(s: Text)
    requires LBRACE !in s
    ensures FlowEdge(s) == None
  {
    if s != [] {
      NoBrace(s[1..]);
      TrimStartWithin(s[1..], LBRACE);
      NoFlowHere(s);
    }
  }

  lemma NoFlowHere(s: Text)
    requires s != [] && LBRACE !in TrimStart(s[1..])
    ensures FlowAt(s) == None
  {
    hide TrimStart, TokenThen, FlowAttrs;
    AfterStarts(s, [DASH]);
    if After(s, [DASH]).Some? {
      AfterStarts(After(s, [DASH]).value, [LBRACE] + TYPE + [COLON]);
    }
  }

  lemma AfterStarts(s: Text, prefix: Text)
    requires prefix != []
    ensures After(s, prefix).Some? ==> s != [] && s[0] == prefix[0]
  {
    hide TrimStart;
  }

  lemma PlainLines(k: Text, v: Text)
    requires IsKey(k) && Plain(v) && LBRACE !in v
    ensures GoodCont(k, v) && GoodOpen(v)
  {
    hide FlowEdge, EmitScalar;
    PlainIsEmitted(v, true);
    PlainIsEmitted(v, false);
    assert LBRACE !in TYPE && LBRACE !in INDENT;
    NoBraceInKey(k);
    NoBrace(ContText(k, v));
    NoBrace(DashedText(KeyText(TYPE, v)));
  }

  lemma NoBraceInKey(k: Text)
    requires IsKey(k)
    ensures LBRACE !in k
  {
  }

  lemma NoteIsKey()
    ensures IsKey(N) && IsKey(TO) && N != TARGET && TO != TARGET
  {
  }

  const PQ_LINES: Text := P + [NL] + [0x71]
  const PQ: Text := P + [SPACE] + [0x71]

  /** The line feed as JSON escapes it. */
  const PQ_ESCAPED: Text := P + [BACKSLASH, N[0]] + [0x71]

  lemma Folded()
    ensures FoldLines(PQ_LINES) == PQ && EmitScalar(PQ_LINES, false) == PQ && Plain(PQ) && Plain(A) && Plain(B)
    ensures LBRACE !in PQ && LBRACE !in A && LBRACE !in B && !IsToken(PQ_LINES)
  {
    hide Trim, ScalarValue, FoldLines;
    assert !IsKeyUnit(PQ_LINES[1]);
    PlainIsEmitted(PQ, false);
    SpaceForBreak();
  }

  lemma SpaceForBreak()
    ensures FoldLines(PQ_LINES) == PQ
  {
    assert PQ_LINES[1..] == [NL, 0x71] && [NL, 0x71][1..] == [0x71] && [0x71][1..] == [];
    assert FoldLines([0x71]) == [0x71];
    assert FoldLines([NL, 0x71]) == PQ[1..];
  }

  lemma LinesComeToSpace()
    ensures var e := Edge(A, B, [(N, PQ_LINES)]); !Rewritten(e).faulty && Rewritten(e).edges == [Noted(PQ)]
  {
    hide Rewritten, FoldLines, EmitScalar, GoodCont, GoodOpen, WellRead, Plain, IsToken, IsKey;
    var e := Edge(A, B, [(N, PQ_LINES)]);
    Folded();
    NoteIsKey();
    NotedShape(PQ_LINES);
    assert Nonempty([(N, PQ_LINES)]) == [(N, PQ_LINES)];
    assert !IsToken(Nonempty(e.attrs)[0].1);
    assert !Flowable(e);
    PlainLines(TO, A);
    PlainLines(TO, B);
    PlainLines(N, PQ);
    PlainIsEmitted(A, false);
    PlainIsEmitted(B, false);
    PlainIsEmitted(PQ, false);
    SameGood();
    BlockExactly(e);
    assert TailOf(e) == [(TO, B), (N, PQ_LINES)];
    assert [(TYPE, A)] + FoldedProps(TailOf(e)) == Noted(PQ);
  }

  /** A folded value stands on its line as the value it folds to does. */
  lemma SameGood()
    requires EmitScalar(PQ_LINES, false) == PQ == EmitScalar(PQ, false)
    ensures GoodCont(N, PQ_LINES) == GoodCont(N, PQ)
  {
    hide EmitScalar, FlowEdge;
  }

  /** A line break is folded: `n` has become one line. */
  lemma LineBreakIsFolded(json: Text -> Json)
    requires json(JsonNote(PQ_ESCAPED)) == NotedJson(PQ_LINES)
    ensures var reader, lines := FlowReader(json), Header(JsonNote(PQ_ESCAPED));
            var was, now := Lexed(reader, lines), Lexed(reader, Expanded(reader, lines, 0));
            && was.faults == [] && PropsIn(was.edges) == [Noted(PQ_LINES)]
            && now.faults == [] && PropsIn(now.edges) == [Noted(PQ)]
            && !AllKept(was, now)
  {
    hide Lexed, Expanded, Header, Rewritten, OnItsLine, EdgeOf, Shaped, WellRead, SameProps, JsonNote, NotedJson, FlowReader;
    JsonNoteIsOnItsLine(PQ_ESCAPED);
    NotedShape(PQ_LINES);
    var reader := FlowReader(json);
    NotedReads(json, JsonNote(PQ_ESCAPED), PQ_LINES);
    HeaderReads(reader, JsonNote(PQ_ESCAPED), Noted(PQ_LINES));
    OneEdgeComesTo(reader, JsonNote(PQ_ESCAPED), Noted(PQ_LINES));
    LinesComeToSpace();
    assert PQ[1] != PQ_LINES[1];
    OtherNote(PQ_LINES, [(N, PQ)]);
    assert [(TYPE, A), (TO, B)] + [(N, PQ)] == Noted(PQ);
    var edges := PropsIn(Lexed(reader, Expanded(reader, Header(JsonNote(PQ_ESCAPED)), 0)).edges);
    assert edges == [Noted(PQ)];
    assert !SameProps(edges[0], [Noted(PQ_LINES)][0]);
  }

  // ---------- the text of a flow edge ----------

  /** `- {type: x, to: y}`. */
  const FLOW_TEXT: Text := [DASH, SPACE] + ([LBRACE] + TYPE + [COLON, SPACE] + X + [COMMA, SPACE] + TO + [COLON, SPACE] + Y + AttrTail([]))

  lemma FlowTextIsPlain()
    ensures Plain(FLOW_TEXT) && FLOW_TEXT[0] == DASH && !IsToken(FLOW_TEXT) && IsText(FLOW_TEXT) && HASH !in FLOW_TEXT
  {
    assert AttrTail([]) == [RBRACE];
    assert FLOW_TEXT == [DASH, SPACE, LBRACE, 0x74, 0x79, 0x70, 0x65, COLON, SPACE, 0x78, COMMA, SPACE, 0x74, 0x6F, COLON, SPACE, 0x79, RBRACE];
    assert !IsKeyUnit(FLOW_TEXT[1]);
  }

  lemma NotADash(s: Text)
    requires s != [] && s[0] != DASH
    ensures FlowEdge(s) == FlowEdge(s[1..])
  {
    hide TrimStart, TokenThen, FlowAttrs;
    AfterStarts(s, [DASH]);
  }

  /** The line `    n: - {type: x, to: y}` is a flow edge. */
  lemma NoteIsFlow()
    ensures FlowEdge(ContText(N, FLOW_TEXT)) == Some([(TYPE, X), (TO, Y)])
    ensures ViewOf(ContText(N, FLOW_TEXT)) == FlowLine([(TYPE, X), (TO, Y)])
  {
    hide FlowEdge, FlowAt, IsKey, InlineList, KeyValue, AttrTail;
    var line := ContText(N, FLOW_TEXT);
    FlowTextIsPlain();
    NotADash(line);
    NotADash(line[1..]);
    NotADash(line[2..]);
    NotADash(line[3..]);
    NotADash(line[4..]);
    NotADash(line[5..]);
    NotADash(line[6..]);
    SuffixesMeet(line);
    assert line[7..] == FLOW_TEXT;
    FlowAtReads(X, Y, []);
    FlowAtFront(FLOW_TEXT);
    IndentedIsNoKey(line);
  }

  lemma SuffixesMeet(s: Text)
    requires |s| >= 7
    ensures forall k | 0 <= k < 7 :: s[k..][1..] == s[k + 1..]
  {
  }

  /** The block lines of that edge: its type, its target, and another edge. */
  lemma FlowNoteLines()
    ensures var e := Edge(A, B, [(N, FLOW_TEXT)]);
            && EdgeLines(e) == [DashedText(KeyText(TYPE, A)), ContText(TO, B), ContText(N, FLOW_TEXT)]
            && GoodOpen(A) && GoodCont(TO, B) && EmitScalar(A, true) == A && EmitScalar(B, false) == B
            && FoldLines(A) == A && FoldLines(B) == B
  {
    hide FoldLines, EmitScalar, Plain, IsToken, GoodCont, GoodOpen, ContText, DashedText, KeyText, IsKey;
    var e := Edge(A, B, [(N, FLOW_TEXT)]);
    Folded();
    NoteIsKey();
    FlowTextIsPlain();
    PlainLines(TO, A);
    PlainLines(TO, B);
    PlainIsEmitted(A, true);
    PlainIsEmitted(A, false);
    PlainIsEmitted(B, true);
    PlainIsEmitted(B, false);
    PlainIsEmitted(FLOW_TEXT, false);
    assert [(N, FLOW_TEXT)][1..] == [] && Nonempty([(N, FLOW_TEXT)]) == [(N, FLOW_TEXT)];
    assert !IsToken(Nonempty(e.attrs)[0].1);
    assert !Flowable(e);
    assert ContLines([(N, FLOW_TEXT)]) == [ContText(N, FLOW_TEXT)] + ContLines([]);
  }

  lemma FlowNoteComesTo()
    ensures var e := Edge(A, B, [(N, FLOW_TEXT)]);
            !Rewritten(e).faulty && Rewritten(e).edges == [[(TYPE, A), (TO, B)], [(TYPE, X), (TO, Y)]]
  {
    hide FoldLines, EmitScalar, GoodCont, GoodOpen, ContText, DashedText, KeyText, ViewOf, CoreStep, Added, EdgeLines, Complete, FLOW_TEXT,
         IsKey;
    FlowNoteLines();
    NoteIsFlow();
    NoteIsKey();
    OneOpen(A);
    OneCont(Some([(TYPE, A)]), TO, B);
    var open := Some([(TYPE, A), (TO, B)]);
    assert Put<Text>([(TYPE, A)], TO, B) == [(TYPE, A), (TO, B)] by { PutBehind(); }
    LooseUnderEdges(open, FlowLine([(TYPE, X), (TO, Y)]));
    StartsComplete(A, B, [(TO, B)]);
    assert [(TYPE, A)] + [(TO, B)] == open.value;
    AddedNothing(None);
    var v, w, f := ViewOf(DashedText(KeyText(TYPE, A))), ViewOf(ContText(TO, B)), FlowLine([(TYPE, X), (TO, Y)]);
    assert Views(EdgeLines(Edge(A, B, [(N, FLOW_TEXT)]))) == [v, w, f];
    AddedHead(UnderEdges(None), [v, w, f]);
    assert [v, w, f][1..] == [w, f] && [w, f][1..] == [f] && [f][1..] == [];
    AddedHead(UnderEdges(Some([(TYPE, A)])), [w, f]);
    AddedHead(UnderEdges(open), [f]);
  }

  lemma PutBehind()
    ensures Put<Text>([(TYPE, A)], TO, B) == [(TYPE, A), (TO, B)]
  {
    assert TYPE != TO;
    assert [(TYPE, A)][1..] == [] && Put<Text>([], TO, B) == [(TO, B)];
  }

  /** An attribute that reads as a flow edge becomes one: `n` is gone, and an edge from `x` to `y` is there. */
  lemma FlowTextIsRead(json: Text -> Json)
    requires json(JsonNote(FLOW_TEXT)) == NotedJson(FLOW_TEXT)
    ensures var reader, lines := FlowReader(json), Header(JsonNote(FLOW_TEXT));
            var was, now := Lexed(reader, lines), Lexed(reader, Expanded(reader, lines, 0));
            && was.faults == [] && PropsIn(was.edges) == [Noted(FLOW_TEXT)]
            && now.faults == [] && PropsIn(now.edges) == [[(TYPE, A), (TO, B)], [(TYPE, X), (TO, Y)]]
            && !AllKept(was, now)
  {
    hide Lexed, Expanded, Header, Rewritten, OnItsLine, EdgeOf, Shaped, WellRead, SameProps, FLOW_TEXT, JsonNote, NotedJson, FlowReader;
    FlowTextIsPlain();
    JsonNoteIsOnItsLine(FLOW_TEXT);
    NotedShape(FLOW_TEXT);
    var reader := FlowReader(json);
    NotedReads(json, JsonNote(FLOW_TEXT), FLOW_TEXT);
    HeaderReads(reader, JsonNote(FLOW_TEXT), Noted(FLOW_TEXT));
    OneEdgeComesTo(reader, JsonNote(FLOW_TEXT), Noted(FLOW_TEXT));
    FlowNoteComesTo();
  }

  // ---------- an edge lost and another found ----------

  const Z: Text := [0x7A]

  /** `pin:`, `  - {type: a, to: b}`, `  - z`, `edges:`, `pin: []`, `  - type: a`, `    to: b`. */
  function LostLines(): seq<Text> {
    [PIN + [COLON], FlowText(A, B, []), DashedText(Z), EDGES + [COLON], InlineText(PIN, []), DashedText(KeyText(TYPE, A)),
     ContText(TO, B)]
  }

  /** Without its first and its second `pin`: the edge among the first one's lines is gone, and behind the second one
      the same edge has come under `edges:`. */
  function FoundLines(): seq<Text> {
    [LostLines()[3], LostLines()[5], LostLines()[6]]
  }

  const AB: Props := [(TYPE, A), (TO, B)]

  predicate LostViews(vs: seq<View>) {
    && |vs| == 7 && vs[0] == KeyLine(PIN, []) && vs[1] == FlowLine(AB) && vs[2].Other? && vs[2].item == Some(Z)
    && vs[3] == KeyLine(EDGES, []) && vs[4] == ListLine(PIN, []) && vs[5].Other? && vs[5].open == Some((TYPE, A))
    && vs[6].Other? && vs[6].open == None && vs[6].cont == Some((TO, B))
  }

  lemma PinIsList()
    ensures IsKey(PIN) && IsListField(PIN) && PIN != EDGES
  {
    assert SameText(PIN, LIST_FIELDS[0]);
  }

  lemma LostAreSeen()
    ensures LostViews(Views(LostLines()))
  {
    hide ViewOf, FlowText, DashedText, KeyText, ContText, InlineText, IsKey, IsListField, FlowEdge, Plain, InlineList, KeyValue;
    PinIsList();
    NoteIsKey();
    Folded();
    PinSeen();
    FlowReads(A, B, []);
    ItemSeen();
    HeaderView();
    InlineReads(PIN, []);
    TypeIsKey();
    PlainLines(TO, A);
    PlainLines(TO, B);
    PlainIsEmitted(A, true);
    PlainIsEmitted(B, false);
    OpenReads(TYPE, A);
    ContReads(TO, B);
  }

  lemma TypeIsKey()
    ensures IsKey(TYPE) && IsToken(A) && IsToken(B) && FlowAttrsFit([]) && PutAll(AB, []) == AB
  {
  }

  lemma PinSeen()
    ensures ViewOf(PIN + [COLON]) == KeyLine(PIN, [])
  {
    hide InlineList, KeyValue, IsKey, IsListField;
    PinIsList();
    BareKeyReads(PIN);
  }

  lemma ItemSeen()
    ensures var v := ViewOf(DashedText(Z)); v.Other? && v.item == Some(Z)
  {
    hide FlowEdge, ViewOf;
    NoBrace(DashedText(Z));
    ItemReads(Z);
  }

  /** What those views come to, before and after the cut. */
  lemma LostOutcomes(vs: seq<View>)
    requires LostViews(vs)
    ensures var c := At(vs, 4); c.mode == UnderEdges(None)
    ensures Outcome(vs) == Core([(PIN, List([]))], [AB], false, Nothing)
    ensures Outcome([vs[3], vs[5], vs[6]]) == Core([], [AB], false, UnderEdges(None))
  {
    hide IsListField, Trim, Complete, ScalarValue, Put, Lookup, CoreRun;
    PinIsList();
    EmptyReadsBack();
    ReadAsThemselves();
    PinTwice();
    var c1 := CoreStep(START, vs[0]);
    var c2 := CoreStep(c1, vs[1]);
    var c3 := CoreStep(c2, vs[2]);
    var c4 := CoreStep(c3, vs[3]);
    var c5 := CoreStep(c4, vs[4]);
    var c6 := CoreStep(c5, vs[5]);
    var c7 := CoreStep(c6, vs[6]);
    assert c1 == Core([(PIN, List([]))], [], false, Lists(PIN));
    assert c2 == Core([(PIN, List([]))], [AB], false, Lists(PIN));
    assert ItemsOf(c2.fields, PIN) == [] by { assert Lookup<Value>(c2.fields, PIN) == Some(List([])); }
    assert [] + [Z] == [Z];
    assert c3 == Core([(PIN, List([Z]))], [AB], false, Lists(PIN));
    assert c4 == Core([(PIN, List([Z]))], [AB], false, UnderEdges(None));
    assert c5 == Core([(PIN, List([]))], [AB], false, Nothing);
    assert c7 == c5;
    RunsSteps(START, vs, c1, c2, c3, c4, c5, c6, c7);
    AtIs(vs, 4);
    var d1 := CoreStep(START, vs[3]);
    var d2 := CoreStep(d1, vs[5]);
    var d3 := CoreStep(d2, vs[6]);
    assert d2 == Core([], [], false, UnderEdges(Some([(TYPE, A)])));
    assert d3 == Core([], [], false, UnderEdges(Some(AB)));
    RunsThree(START, [vs[3], vs[5], vs[6]], d1, d2, d3);
  }

  lemma RunsSteps(c: Core, vs: seq<View>, c1: Core, c2: Core, c3: Core, c4: Core, c5: Core, c6: Core, c7: Core)
    requires |vs| == 7 && c1 == CoreStep(c, vs[0]) && c2 == CoreStep(c1, vs[1]) && c3 == CoreStep(c2, vs[2])
    requires c4 == CoreStep(c3, vs[3]) && c5 == CoreStep(c4, vs[4]) && c6 == CoreStep(c5, vs[5]) && c7 == CoreStep(c6, vs[6])
    ensures CoreRun(c, vs) == c7 && CoreRun(c, vs[..4]) == c4
  {
    hide CoreStep, CoreRun;
    RunsThree(c, vs[..3], c1, c2, c3);
    OneStep(c3, vs[3]);
    RunConcat(c, vs[..3], [vs[3]]);
    assert vs[..4] == vs[..3] + [vs[3]];
    RunsThree(c4, vs[4..], c5, c6, c7);
    RunConcat(c, vs[..4], vs[4..]);
    assert vs == vs[..4] + vs[4..];
  }

  lemma RunsThree(c: Core, vs: seq<View>, c1: Core, c2: Core, c3: Core)
    requires |vs| == 3 && c1 == CoreStep(c, vs[0]) && c2 == CoreStep(c1, vs[1]) && c3 == CoreStep(c2, vs[2])
    ensures CoreRun(c, vs) == c3
  {
    hide CoreStep, CoreRun;
    OneStep(c, vs[0]);
    OneStep(c1, vs[1]);
    OneStep(c2, vs[2]);
    RunConcat(c, [vs[0]], [vs[1]]);
    RunConcat(c, [vs[0]] + [vs[1]], [vs[2]]);
    assert vs == [vs[0]] + [vs[1]] + [vs[2]];
  }

  lemma ReadAsThemselves()
    ensures ScalarValue(Trim(Z)) == Z && ScalarValue(Trim(A)) == A && ScalarValue(Trim(B)) == B
    ensures BlockKey(TYPE) == TYPE && BlockKey(TO) == TO && Put<Text>([(TYPE, A)], TO, B) == AB && Complete(AB)
  {
    hide Trim, Lookup;
    TrimFixes(Z);
    TrimFixes(A);
    TrimFixes(B);
    PutBehind();
    assert [(TYPE, A)] + [(TO, B)] == AB;
    StartsComplete(A, B, [(TO, B)]);
  }

  lemma PinTwice()
    ensures Put<Value>([], PIN, List([])) == [(PIN, List([]))]
    ensures forall v, w: Value :: Put<Value>([(PIN, v)], PIN, w) == [(PIN, w)]
    ensures forall v: Value :: Lookup<Value>([(PIN, v)], PIN) == Some(v)
  {
  }

  /** The lexer's entries of those views. */
  lemma LostEntries(vs: seq<View>)
    requires LostViews(vs)
    ensures Before(vs, 7).entries
         == [Entry(ListEntry, PIN, 0, 3, false), Entry(EdgesEntry, EDGES, 3, 4, false), Entry(ListEntry, PIN, 4, 5, false)]
  {
    hide IsListField, Trim, Complete, ScalarValue, Put, Lookup;
    PinIsList();
    EmptyReadsBack();
    assert Before(vs, 1).entries == [Entry(ListEntry, PIN, 0, 1, false)] && Before(vs, 1).mode == Listing(PIN);
    assert Before(vs, 2).entries == [Entry(ListEntry, PIN, 0, 1, false)] && Before(vs, 2).mode == Listing(PIN);
    assert Before(vs, 3).entries == [Entry(ListEntry, PIN, 0, 3, false)] && Before(vs, 3).mode == Listing(PIN);
    var three := [Entry(ListEntry, PIN, 0, 3, false), Entry(EdgesEntry, EDGES, 3, 4, false)];
    assert Before(vs, 4).entries == three && Before(vs, 4).mode == InEdges(None);
    assert Before(vs, 5).entries == three + [Entry(ListEntry, PIN, 4, 5, false)] && Before(vs, 5).mode == Idle;
    assert Before(vs, 6) == Before(vs, 5) && Before(vs, 7) == Before(vs, 6);
  }

  /** The second `pin` stands under `edges:`, before a line that opens an edge: its cut does not fit. */
  lemma SecondCutMisfits(vs: seq<View>)
    requires LostViews(vs)
    ensures !CutFits(vs, PIN, Entry(ListEntry, PIN, 4, 5, false))
  {
    hide At, FieldHolds;
    LostOutcomes(vs);
    var e := Entry(ListEntry, PIN, 4, 5, false);
    assert vs[5..5] == [];
    assert NextHeader(vs, 7) == 7 && NextHeader(vs, 6) == 7 && NextHeader(vs, 5) == 7;
    assert LooseBehind(vs, e)[0] == vs[5];
  }

  lemma BareFirst(reader: Reader, s: seq<Text>)
    requires s != [] && Bare(reader, s[0])
    ensures FirstMarks(reader, s) == [ViewOf(s[0])] && Width(reader, s) == 1
  {
    hide ViewOf, Trim;
    assert s[0..] == s && s == [s[0]] + s[1..];
  }

  lemma {:induction false} BareMarks(reader: Reader, s: seq<Text>)
    requires AllBare(reader, s)
    ensures Marks(reader, s) == Views(s)
    decreases |s|
  {
    hide ViewOf, FirstMarks, Width, Bare;
    if s != [] {
      var rest := s[1..];
      assert forall i | 0 <= i < |rest| :: rest[i] == s[i + 1];
      BareMarks(reader, rest);
      BareFirst(reader, s);
      ViewsHead(s[0], rest);
      assert s == [s[0]] + rest;
    }
  }

  lemma LostAreBare(reader: Reader)
    ensures AllBare(reader, LostLines()) && AllBare(reader, FoundLines())
    ensures var vs := Views(LostLines()); Views(FoundLines()) == [vs[3], vs[5], vs[6]]
  {
    hide ViewOf, LostLines;
    LostAreSeen();
    EmptyReadsBack();
    var lines, vs := LostLines(), Views(LostLines());
    assert |lines| == 7;
    forall i | 0 <= i < 7
      ensures Bare(reader, lines[i])
    {
      assert vs[i] == ViewOf(lines[i]);
    }
  }

  lemma LostOwn(entries: seq<Entry>)
    requires entries
          == [Entry(ListEntry, PIN, 0, 3, false), Entry(EdgesEntry, EDGES, 3, 4, false), Entry(ListEntry, PIN, 4, 5, false)]
    ensures FrontmatterKeyEdit.OwnEntries(entries, PIN)
         == [Entry(ListEntry, PIN, 0, 3, false), Entry(ListEntry, PIN, 4, 5, false)]
  {
    hide FrontmatterKeyEdit.OwnEntries;
    var first, second, third := entries[0], entries[1], entries[2];
    OwnNone();
    assert [] + [first] == [first];
    OwnLast([], first);
    assert [first] + [second] == [first, second];
    OwnLast([first], second);
    assert [first, second] + [third] == entries;
    OwnLast([first, second], third);
  }

  lemma OwnNone()
    ensures FrontmatterKeyEdit.OwnEntries([], PIN) == []
  {
  }

  lemma OwnLast(entries: seq<Entry>, e: Entry)
    ensures FrontmatterKeyEdit.OwnEntries(entries + [e], PIN)
         == FrontmatterKeyEdit.OwnEntries(entries, PIN) + if e.key == PIN && e.kind != EdgesEntry then [e] else []
  {
    assert (entries + [e])[..|entries|] == entries;
  }

  lemma FlushedEntries(x: Lex, i: nat)
    ensures Flush(x, i).entries == x.entries
  {
  }

  lemma LostSpliced(lines: seq<Text>, own: seq<Entry>)
    requires |lines| == 7 && own == [Entry(ListEntry, PIN, 0, 3, false), Entry(ListEntry, PIN, 4, 5, false)]
    ensures Within(own, 7) && Spliced(lines, own) == [lines[3], lines[5], lines[6]]
  {
    var cut := Cut(lines, 4, 5);
    assert own[..1] == [Entry(ListEntry, PIN, 0, 3, false)] && own[..1][..0] == [];
    assert cut == lines[..4] + lines[5..];
    assert Cut(cut, 0, 3) == [lines[3], lines[5], lines[6]];
    assert Spliced(cut, own[..1]) == Spliced(Cut(cut, 0, 3), own[..1][..0]);
  }

  /** A key that stands twice, with a flow edge among its lines: no field and no edge changes, though the second cut
      alone would have let an edge in. */
  lemma LostAndFound(reader: Reader)
    ensures var lines := LostLines();
            && Lexed(reader, lines).faults == []
            && FrontmatterKeyEdit.KeyEdit(lines, Lexed(reader, lines).entries, PIN, None, FoundLines())
            && FrontmatterKeyEdit.OnlyKeyChanged(Lexed(reader, lines), Lexed(reader, FoundLines()), PIN, None)
            && !FrontmatterKeyEdit.KeyFits(Marks(reader, lines), PIN, None)
  {
    hide Lexed, LostLines, Views, Before, AllBare, ViewOf, Marks, LostViews, FrontmatterKeyEdit.OwnEntries, Outcome, CutFits, Spliced;
    var lines, vs := LostLines(), Views(LostLines());
    LostAreSeen();
    LostAreBare(reader);
    SevenViews(lines, vs);
    LexedIsOutcome(reader, lines);
    LexedIsOutcome(reader, FoundLines());
    LostOutcomes(vs);
    LexEnds(reader, lines);
    FlushedEntries(Before(vs, 7), 7);
    LostEntries(vs);
    LostOwn(Before(vs, 7).entries);
    var own := [Entry(ListEntry, PIN, 0, 3, false), Entry(ListEntry, PIN, 4, 5, false)];
    LostSpliced(lines, own);
    BareMarks(reader, lines);
    SecondCutMisfits(vs);
    PinIsList();
    OnlyPinGone(Lexed(reader, lines), Lexed(reader, FoundLines()));
  }

  lemma OnlyPinGone(was: Lex, now: Lex)
    requires CoreOf(was) == Core([(PIN, List([]))], [AB], false, Nothing)
    requires CoreOf(now) == Core([], [AB], false, UnderEdges(None))
    ensures FrontmatterKeyEdit.OnlyKeyChanged(was, now, PIN, None)
  {
    assert [(PIN, List([]))][1..] == [];
    assert forall q | q != PIN :: Lookup<Value>(was.fields, q) == Lookup<Value>([], q);
  }

  lemma SevenViews(lines: seq<Text>, vs: seq<View>)
    requires vs == Views(lines) && LostViews(vs)
    ensures |vs| == 7 && |lines| == 7
  {
  }
}
