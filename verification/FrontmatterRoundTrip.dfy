/** Writing a node and reading it back (`lib/kernel/frontmatter.js`). */
module FrontmatterRoundTrip {
  import opened Common
  import opened ContentText
  import opened FrontmatterScalar
  import opened FrontmatterLines
  import opened FrontmatterLexer

  const BODY: Text := [0x62, 0x6F, 0x64, 0x79]
  const FILE: Text := [0x66, 0x69, 0x6C, 0x65]
  const EXCLUDE: Text := [0x65, 0x78, 0x63, 0x6C, 0x75, 0x64, 0x65]
  const REPO: Text := [0x72, 0x65, 0x70, 0x6F]
  const PROJECT: Text := [0x70, 0x72, 0x6F, 0x6A, 0x65, 0x63, 0x74]

  /** An edge: its type, its target, and its other attributes in order. */
  datatype Edge = Edge(kind: Text, to: Text, attrs: Props)

  datatype Node = Node(fields: Fields, edges: seq<Edge>, body: Text)

  function PropsOf(e: Edge): Props {
    [(TYPE, e.kind), (TO, e.to)] + e.attrs
  }

  // ---------- writing ----------

  /** The attributes that are written: an empty one is left out. */
  function Nonempty(attrs: Props): (r: Props)
    ensures forall k | 0 <= k < |r| :: r[k].1 != []
  {
    if attrs == [] then [] else (if attrs[0].1 == [] then [] else [attrs[0]]) + Nonempty(attrs[1..])
  }

  predicate Flowable(e: Edge) {
    IsToken(e.kind) && IsToken(e.to) && FlowAttrsFit(Nonempty(e.attrs))
  }

  function ContLines(attrs: Props): seq<Text> {
    if attrs == [] then [] else [ContText(attrs[0].0, EmitScalar(attrs[0].1, false))] + ContLines(attrs[1..])
  }

  /** One edge's lines: flow form when every value is a bare token, block form otherwise. */
  function EdgeLines(e: Edge): seq<Text> {
    if Flowable(e) then [FlowText(e.kind, e.to, Nonempty(e.attrs))]
    else
      [DashedText(KeyText(TYPE, EmitScalar(e.kind, true))), ContText(TO, EmitScalar(e.to, true))]
      + ContLines(Nonempty(e.attrs))
  }

  function AllEdgeLines(edges: seq<Edge>): seq<Text> {
    if edges == [] then [] else EdgeLines(edges[0]) + AllEdgeLines(edges[1..])
  }

  function ItemLines(items: seq<Text>): seq<Text> {
    if items == [] then [] else [DashedText(EmitScalar(items[0], true))] + ItemLines(items[1..])
  }

  predicate AllInlineSafe(items: seq<Text>) {
    forall k | 0 <= k < |items| :: InlineSafe(items[k])
  }

  /** An empty `pin` or `exclude` is left out; it reads back empty anyway. */
  predicate LeftOut(k: Text, v: Value) {
    v == List([]) && (k == PIN || k == EXCLUDE)
  }

  function FieldLines(k: Text, v: Value): seq<Text> {
    match v
    case Scalar(t) => [KeyText(k, EmitScalar(t, false))]
    case List(items) =>
      if LeftOut(k, v) then []
      else if AllInlineSafe(items) then [InlineText(k, items)]
      else [k + [COLON]] + ItemLines(items)
  }

  function AllFieldLines(fields: Fields): seq<Text> {
    if fields == [] then [] else FieldLines(fields[0].0, fields[0].1) + AllFieldLines(fields[1..])
  }

  function Only(fields: Fields, k: Text): Fields {
    match Lookup<Value>(fields, k)
    case Some(v) => [(k, v)]
    case None => []
  }

  function Others(fields: Fields): Fields {
    if fields == [] then []
    else (if fields[0].0 == ID || fields[0].0 == TYPE then [] else [fields[0]]) + Others(fields[1..])
  }

  /** `id` and `type` first, then the rest in the node's own order. */
  function Ordered(fields: Fields): Fields {
    Only(fields, ID) + Only(fields, TYPE) + Others(fields)
  }

  function NodeLines(n: Node): seq<Text> {
    AllFieldLines(Ordered(n.fields)) + if n.edges == [] then [] else [EDGES + [COLON]] + AllEdgeLines(n.edges)
  }

  function JoinLines(lines: seq<Text>): Text {
    if lines == [] then [] else if |lines| == 1 then lines[0] else lines[0] + [NL] + JoinLines(lines[1..])
  }

  const FENCE: Text := [DASH, DASH, DASH]

  function SerializeNode(n: Node): Text {
    var body := Trim(n.body);
    FENCE + [NL] + JoinLines(NodeLines(n)) + [NL] + FENCE + [NL] + if body == [] then [] else [NL] + body + [NL]
  }

  // ---------- reading ----------

  function SplitLines(t: Text): (r: seq<Text>)
    ensures r != []
    decreases |t|
  {
    var k := FirstNewline(t);
    if k < 0 then [t] else [t[..k]] + SplitLines(t[k + 1..])
  }

  /** The first newline that a fence follows, or -1. */
  function FenceIn(t: Text): (k: int)
    ensures k == -1 || 0 <= k <= |t| - 4
    decreases |t|
  {
    if |t| < 4 then -1
    else if [NL] + FENCE <= t then 0
    else
      var k := FenceIn(t[1..]);
      if k < 0 then -1 else k + 1
  }

  datatype Document = Document(frontmatter: Text, body: Text)

  function SplitDocument(raw: Text): Option<Document> {
    var text := ToLf(raw);
    if !(FENCE + [NL] <= text) || FenceIn(text[4..]) < 0 then None
    else
      var k := FenceIn(text[4..]);
      var rest := text[4..][k + 4..];
      Some(Document(text[4..][..k], if rest != [] && rest[0] == NL then rest[1..] else rest))
  }

  datatype ReadNode = ReadNode(fields: Fields, edges: seq<Props>, body: Text)

  /** The strict read: none without a fence or with a fault. */
  function ParseFrontmatter(reader: Reader, raw: Text): Option<ReadNode> {
    match SplitDocument(raw)
    case None => None
    case Some(doc) =>
      var lex := Lexed(reader, SplitLines(doc.frontmatter));
      if lex.faults != [] then None else Some(ReadNode(lex.fields, PropsIn(lex.edges), Trim(doc.body)))
  }

  /** A field of the folded node: the list defaults, and `project` standing for `repo`. */
  function FieldOf(fields: Fields, k: Text): Option<Value> {
    if k == PROJECT && Lookup<Value>(fields, REPO).Some? then Lookup(fields, REPO)
    else
      match Lookup<Value>(fields, k)
      case Some(v) => Some(v)
      case None => if k == PIN || k == EXCLUDE then Some(List([])) else None
  }

  // ---------- what a node must be to be written ----------

  predicate Writes(t: Text) {
    OneLine(t) && IsText(t)
  }

  predicate DistinctKeys<V>(m: seq<(Text, V)>) {
    forall i, j | 0 <= i < j < |m| :: m[i].0 != m[j].0
  }

  predicate FieldFits(k: Text, v: Value) {
    && IsKey(k) && k != EDGES && k != BODY && k != FILE
    && match v
       case Scalar(t) => !IsListField(k) && Writes(t)
       case List(items) =>
         IsListField(k)
         && (forall i | 0 <= i < |items| :: Writes(items[i]))
         && (AllInlineSafe(items) || forall i | 0 <= i < |items| :: FlowEdge(DashedText(EmitScalar(items[i], true))) == None)
  }

  predicate AttrsFit(attrs: Props) {
    && DistinctKeys(attrs)
    && forall i | 0 <= i < |attrs| ::
         IsKey(attrs[i].0) && attrs[i].0 != TYPE && attrs[i].0 != TO && attrs[i].0 != TARGET
         && attrs[i].1 != [] && Writes(attrs[i].1)
  }

  predicate EdgeFits(e: Edge) {
    && e.kind != [] && Writes(e.kind) && e.to != [] && Writes(e.to) && AttrsFit(e.attrs)
    && (Flowable(e) || forall line | line in EdgeLines(e) :: FlowEdge(line) == None)
  }

  predicate NodeFits(n: Node) {
    && DistinctKeys(n.fields)
    && (forall i | 0 <= i < |n.fields| :: FieldFits(n.fields[i].0, n.fields[i].1))
    && (forall i | 0 <= i < |n.edges| :: EdgeFits(n.edges[i]))
  }

  // ---------- lexing one written chunk ----------

  /** The lines from `i` on start with `chunk`. */
  predicate Here(lines: seq<Text>, i: nat, chunk: seq<Text>) {
    i + |chunk| <= |lines| && lines[i..i + |chunk|] == chunk
  }

  lemma HereSplits(lines: seq<Text>, i: nat, a: seq<Text>, b: seq<Text>)
    requires Here(lines, i, a + b)
    ensures Here(lines, i, a) && Here(lines, i + |a|, b)
  {
    var all := lines[i..i + |a + b|];
    assert lines[i..i + |a|] == all[..|a|];
    assert lines[i + |a|..i + |a| + |b|] == all[|a|..];
  }

  lemma HereFirst(lines: seq<Text>, i: nat, chunk: seq<Text>)
    requires Here(lines, i, chunk) && chunk != []
    ensures i < |lines| && lines[i] == chunk[0] && Here(lines, i + 1, chunk[1..])
  {
    assert lines[i..i + |chunk|][0] == chunk[0];
    assert chunk == [chunk[0]] + chunk[1..];
    HereSplits(lines, i, [chunk[0]], chunk[1..]);
  }

  /** A line that is no `edges:` header takes one step. */
  lemma {:induction false} OneLineLexes(reader: Reader, lines: seq<Text>, i: nat, x: Lex, v: View)
    requires i < |lines| && ViewOf(lines[i]) == v && !(v.KeyLine? && v.key == EDGES)
    ensures LexFrom(reader, lines, i, x) == LexFrom(reader, lines, i + 1, Step(x, i, v))
  {
    hide ViewOf, LexFrom, Step, HeaderValue;
    TurnOf(reader, lines, i, x);
    NoHeaderValue(reader, lines, i, Step(x, i, v));
  }

  lemma EmittedText(v: Text, quoteEmpty: bool)
    requires Writes(v)
    ensures var t := EmitScalar(v, quoteEmpty);
            && ScalarValue(t) == v && Trim(t) == t && OneLine(t)
            && (t == [] || !IsWhite(t[0])) && (quoteEmpty || v != [] ==> t != [])
  {
    hide EmitScalar, ScalarValue, Trim, FoldLines;
    ScalarRoundTrip(v, quoteEmpty);
    FoldLinesFixes(v);
    EmittedIsOneLine(v, quoteEmpty);
    TrimFixes(EmitScalar(v, quoteEmpty));
  }

  lemma ScalarLineReads(k: Text, t: Text)
    requires IsKey(k) && !IsListField(k) && OneLine(t) && (t == [] || !IsWhite(t[0]))
    ensures ViewOf(KeyText(k, t)) == KeyLine(k, t)
  {
    hide IsListField, KeyText, KeyValue;
    KeyTextReads(k, t);
  }

  lemma {:induction false} ScalarLexes(reader: Reader, lines: seq<Text>, i: nat, x: Lex, k: Text, t: Text) returns (y: Lex)
    requires FieldFits(k, Scalar(t)) && Here(lines, i, FieldLines(k, Scalar(t))) && !x.mode.InEdges?
    ensures LexFrom(reader, lines, i, x) == LexFrom(reader, lines, i + 1, y)
    ensures y.fields == Put(x.fields, k, Scalar(t)) && y.edges == x.edges && y.faults == x.faults && !y.mode.InEdges?
  {
    hide ViewOf, LexFrom, EmitScalar, ScalarValue, Trim, IsListField, Put, KeyText, OneLine;
    var text := EmitScalar(t, false);
    EmittedText(t, false);
    ScalarLineReads(k, text);
    HereFirst(lines, i, [KeyText(k, text)]);
    OneLineLexes(reader, lines, i, x, KeyLine(k, text));
    y := Step(x, i, KeyLine(k, text));
  }

  lemma {:induction false} ItemLexes(reader: Reader, lines: seq<Text>, i: nat, x: Lex, k: Text, it: Text) returns (y: Lex)
    requires x.mode == Listing(k) && Writes(it) && FlowEdge(DashedText(EmitScalar(it, true))) == None
    requires i < |lines| && lines[i] == DashedText(EmitScalar(it, true))
    ensures LexFrom(reader, lines, i, x) == LexFrom(reader, lines, i + 1, y)
    ensures y.fields == Put(x.fields, k, List(ItemsOf(x.fields, k) + [it]))
    ensures ItemsOf(y.fields, k) == ItemsOf(x.fields, k) + [it]
    ensures y.edges == x.edges && y.faults == x.faults && y.mode == Listing(k)
  {
    hide ViewOf, LexFrom, EmitScalar, ScalarValue, Trim, DashedText, FlowEdge, Put, Lookup, Writes, OneLine;
    EmittedText(it, true);
    ItemReads(EmitScalar(it, true));
    var v := ViewOf(lines[i]);
    OneLineLexes(reader, lines, i, x, v);
    y := Step(x, i, v);
    PutThenLookup<Value>(x.fields, k, List(ItemsOf(x.fields, k) + [it]));
  }

  /** The items of a block list, pushed one by one. */
  lemma {:induction false} ItemsLex(reader: Reader, lines: seq<Text>, i: nat, x: Lex, k: Text, items: seq<Text>) returns (y: Lex)
    requires Here(lines, i, ItemLines(items)) && x.mode == Listing(k)
    requires forall j | 0 <= j < |items| :: Writes(items[j]) && FlowEdge(DashedText(EmitScalar(items[j], true))) == None
    ensures LexFrom(reader, lines, i, x) == LexFrom(reader, lines, i + |ItemLines(items)|, y)
    ensures y.fields == if items == [] then x.fields else Put(x.fields, k, List(ItemsOf(x.fields, k) + items))
    ensures y.edges == x.edges && y.faults == x.faults && y.mode == Listing(k)
    decreases |items|
  {
    hide LexFrom, EmitScalar, DashedText, FlowEdge, Put, Writes, Here, ItemsOf;
    if items == [] {
      y := x;
    } else {
      HereFirst(lines, i, ItemLines(items));
      assert ItemLines(items)[1..] == ItemLines(items[1..]);
      assert Writes(items[0]);
      var z := ItemLexes(reader, lines, i, x, k, items[0]);
      y := ItemsLex(reader, lines, i + 1, z, k, items[1..]);
      var before := ItemsOf(x.fields, k);
      if |items| > 1 {
        PutTwice<Value>(x.fields, k, List(before + [items[0]]), List(before + [items[0]] + items[1..]));
        assert before + [items[0]] + items[1..] == before + items;
      } else {
        assert items == [items[0]];
      }
    }
  }

  lemma {:induction false} PutThenLookup<V>(m: seq<(Text, V)>, k: Text, v: V)
    ensures Lookup(Put(m, k, v), k) == Some(v)
  {
    if m != [] && m[0].0 != k {
      PutThenLookup(m[1..], k, v);
      assert Put(m, k, v)[1..] == Put(m[1..], k, v);
    }
  }

  lemma {:induction false} PutTwice<V>(m: seq<(Text, V)>, k: Text, v: V, w: V)
    ensures Put(Put(m, k, v), k, w) == Put(m, k, w)
  {
    if m != [] {
      if m[0].0 == k {
        assert ([(k, v)] + m[1..])[1..] == m[1..];
      } else {
        PutTwice(m[1..], k, v, w);
        assert Put(m, k, v)[1..] == Put(m[1..], k, v);
      }
    }
  }

  lemma {:induction false} BlockListLexes(reader: Reader, lines: seq<Text>, i: nat, x: Lex, k: Text, items: seq<Text>) returns (y: Lex)
    requires IsKey(k) && k != EDGES && IsListField(k) && items != [] && !x.mode.InEdges?
    requires Here(lines, i, [k + [COLON]] + ItemLines(items))
    requires forall j | 0 <= j < |items| :: Writes(items[j]) && FlowEdge(DashedText(EmitScalar(items[j], true))) == None
    ensures LexFrom(reader, lines, i, x) == LexFrom(reader, lines, i + 1 + |ItemLines(items)|, y)
    ensures y.fields == Put(x.fields, k, List(items))
    ensures y.edges == x.edges && y.faults == x.faults && !y.mode.InEdges?
  {
    hide LexFrom, IsListField, Put, Writes, FlowEdge, DashedText, EmitScalar, Here, ItemsOf, ItemLines, IsKey;
    var chunk := [k + [COLON]] + ItemLines(items);
    HereFirst(lines, i, chunk);
    assert chunk[1..] == ItemLines(items);
    var z := ListOpens(reader, lines, i, x, k);
    y := ItemsLex(reader, lines, i + 1, z, k, items);
    PutTwice<Value>(x.fields, k, List([]), List([] + items));
    assert [] + items == items;
  }

  lemma {:induction false} ListOpens(reader: Reader, lines: seq<Text>, i: nat, x: Lex, k: Text) returns (y: Lex)
    requires IsKey(k) && k != EDGES && IsListField(k) && !x.mode.InEdges?
    requires i < |lines| && lines[i] == k + [COLON]
    ensures LexFrom(reader, lines, i, x) == LexFrom(reader, lines, i + 1, y)
    ensures y.fields == Put(x.fields, k, List([])) && ItemsOf(y.fields, k) == []
    ensures y.edges == x.edges && y.faults == x.faults && y.mode == Listing(k)
  {
    hide LexFrom, IsListField, Put, Lookup, InlineList, KeyValue, IsKey;
    BareKeyReads(k);
    var v := KeyLine(k, []);
    assert ViewOf(k + [COLON]) == v;
    OneLineLexes(reader, lines, i, x, v);
    EmptyReadsBack();
    y := Step(x, i, v);
    PutThenLookup<Value>(x.fields, k, List([]));
  }

  lemma {:induction false} InlineListLexes(reader: Reader, lines: seq<Text>, i: nat, x: Lex, k: Text, items: seq<Text>) returns (y: Lex)
    requires IsKey(k) && IsListField(k) && AllInlineSafe(items) && !x.mode.InEdges?
    requires Here(lines, i, [InlineText(k, items)])
    ensures LexFrom(reader, lines, i, x) == LexFrom(reader, lines, i + 1, y)
    ensures y.fields == Put(x.fields, k, List(items))
    ensures y.edges == x.edges && y.faults == x.faults && !y.mode.InEdges?
  {
    hide ViewOf, LexFrom, IsListField, Put, InlineText, InlineSafe;
    HereFirst(lines, i, [InlineText(k, items)]);
    InlineReads(k, items);
    OneLineLexes(reader, lines, i, x, ListLine(k, items));
    y := Step(x, i, ListLine(k, items));
  }

  /** One field's lines set that field and nothing else. */
  lemma {:induction false} FieldLexes(reader: Reader, lines: seq<Text>, i: nat, x: Lex, k: Text, v: Value) returns (y: Lex)
    requires FieldFits(k, v) && Here(lines, i, FieldLines(k, v)) && !x.mode.InEdges?
    ensures LexFrom(reader, lines, i, x) == LexFrom(reader, lines, i + |FieldLines(k, v)|, y)
    ensures y.fields == if LeftOut(k, v) then x.fields else Put(x.fields, k, v)
    ensures y.edges == x.edges && y.faults == x.faults && !y.mode.InEdges?
  {
    hide LexFrom, IsListField, Put, Writes, FlowEdge, DashedText, EmitScalar, InlineText, InlineSafe, IsKey;
    match v
    case Scalar(t) =>
      y := ScalarLexes(reader, lines, i, x, k, t);
    case List(items) =>
      if LeftOut(k, v) {
        y := x;
      } else if AllInlineSafe(items) {
        y := InlineListLexes(reader, lines, i, x, k, items);
      } else {
        y := BlockListLexes(reader, lines, i, x, k, items);
      }
  }

  function Kept(fields: Fields): Fields {
    if fields == [] then []
    else (if LeftOut(fields[0].0, fields[0].1) then [] else [fields[0]]) + Kept(fields[1..])
  }

  function PutFields(m: Fields, fields: Fields): Fields
    decreases |fields|
  {
    if fields == [] then m else PutFields(Put(m, fields[0].0, fields[0].1), fields[1..])
  }

  lemma {:induction false} FieldsLex(reader: Reader, lines: seq<Text>, i: nat, x: Lex, fields: Fields) returns (y: Lex)
    requires forall j | 0 <= j < |fields| :: FieldFits(fields[j].0, fields[j].1)
    requires Here(lines, i, AllFieldLines(fields)) && !x.mode.InEdges?
    ensures LexFrom(reader, lines, i, x) == LexFrom(reader, lines, i + |AllFieldLines(fields)|, y)
    ensures y.fields == PutFields(x.fields, Kept(fields))
    ensures y.edges == x.edges && y.faults == x.faults && !y.mode.InEdges?
    decreases |fields|
  {
    hide LexFrom, FieldLines, FieldFits, Put, LeftOut, Here;
    if fields == [] {
      y := x;
    } else {
      var (k, v) := fields[0];
      HereSplits(lines, i, FieldLines(k, v), AllFieldLines(fields[1..]));
      assert FieldFits(fields[0].0, fields[0].1);
      var z := FieldLexes(reader, lines, i, x, k, v);
      y := FieldsLex(reader, lines, i + |FieldLines(k, v)|, z, fields[1..]);
      if !LeftOut(k, v) {
        assert Kept(fields)[1..] == Kept(fields[1..]);
      } else {
        assert Kept(fields) == [] + Kept(fields[1..]) == Kept(fields[1..]);
      }
    }
  }

  // ---------- lexing one written edge ----------

  /** The edges read so far, the one under construction included. */
  function EdgesSeen(x: Lex): seq<Props> {
    PropsIn(x.edges) + if x.mode.InEdges? && x.mode.open.Some? then [x.mode.open.value.props] else []
  }

  /** Under `edges:`, with nothing under construction that would be a fault. */
  predicate EdgesGood(x: Lex) {
    x.mode.InEdges? && (x.mode.open.Some? ==> Complete(x.mode.open.value.props))
  }

  lemma FlushKeepsEdges(x: Lex, i: nat)
    requires EdgesGood(x)
    ensures PropsIn(Flush(x, i).edges) == EdgesSeen(x) && Flush(x, i).faults == x.faults
  {
    hide Complete;
  }

  lemma {:induction false} PutAppends<V>(m: seq<(Text, V)>, k: Text, v: V)
    requires forall i | 0 <= i < |m| :: m[i].0 != k
    ensures Put(m, k, v) == m + [(k, v)]
  {
    if m != [] {
      PutAppends(m[1..], k, v);
      assert m == [m[0]] + m[1..];
    }
  }

  lemma {:induction false} PutAllAppends(props: Props, attrs: Props)
    requires DistinctKeys(attrs)
    requires forall i, j | 0 <= i < |props| && 0 <= j < |attrs| :: props[i].0 != attrs[j].0
    ensures PutAll(props, attrs) == props + attrs
    decreases |attrs|
  {
    if attrs == [] {
      assert props + [] == props;
    } else {
      var (k, v) := attrs[0];
      PutAppends(props, k, v);
      var more := props + [(k, v)];
      PutAllAppends(more, attrs[1..]);
      assert more + attrs[1..] == props + attrs;
    }
  }

  lemma {:induction false} NoneLeftOut(attrs: Props)
    requires forall i | 0 <= i < |attrs| :: attrs[i].1 != []
    ensures Nonempty(attrs) == attrs
  {
    if attrs != [] {
      NoneLeftOut(attrs[1..]);
      assert attrs == [attrs[0]] + attrs[1..];
    }
  }

  lemma {:induction false} FlowLexes(reader: Reader, lines: seq<Text>, i: nat, x: Lex, e: Edge) returns (y: Lex)
    requires EdgeFits(e) && Flowable(e) && EdgesGood(x) && Here(lines, i, EdgeLines(e))
    ensures LexFrom(reader, lines, i, x) == LexFrom(reader, lines, i + |EdgeLines(e)|, y)
    ensures EdgesSeen(y) == EdgesSeen(x) + [PropsOf(e)]
    ensures EdgesGood(y) && y.fields == x.fields && y.faults == x.faults
  {
    hide ViewOf, LexFrom, Complete, FlowText, IsToken, Writes;
    NoneLeftOut(e.attrs);
    HereFirst(lines, i, EdgeLines(e));
    FlowReads(e.kind, e.to, e.attrs);
    var first := [(TYPE, e.kind), (TO, e.to)];
    PutAllAppends(first, e.attrs);
    OneLineLexes(reader, lines, i, x, FlowLine(PropsOf(e)));
    FlushKeepsEdges(x, i);
    y := Step(x, i, FlowLine(PropsOf(e)));
    assert y.edges == Flush(x, i).edges + [Placed(PropsOf(e), Flow, i, i + 1)];
    assert EdgesSeen(y) == EdgesSeen(x) + [PropsOf(e)];
  }

  lemma {:induction false} ContLexes(reader: Reader, lines: seq<Text>, i: nat, x: Lex, k: Text, v: Text) returns (y: Lex)
    requires x.mode.InEdges? && x.mode.open.Some? && IsKey(k) && k != TARGET && Writes(v)
    requires i < |lines| && lines[i] == ContText(k, EmitScalar(v, false)) && FlowEdge(lines[i]) == None
    ensures LexFrom(reader, lines, i, x) == LexFrom(reader, lines, i + 1, y)
    ensures y.mode == InEdges(Some(OpenEdge(Put(x.mode.open.value.props, k, v), x.mode.open.value.start)))
    ensures y.fields == x.fields && y.edges == x.edges && y.faults == x.faults
  {
    hide ViewOf, LexFrom, Put, EmitScalar, ScalarValue, Trim, FlowEdge, ContText, Writes, IsKey, OneLine;
    var text := EmitScalar(v, false);
    EmittedText(v, false);
    ContReads(k, text);
    var w := ViewOf(lines[i]);
    OneLineLexes(reader, lines, i, x, w);
    y := Step(x, i, w);
  }

  /** The attribute lines of a block edge. */
  lemma {:induction false} ContLinesLex(reader: Reader, lines: seq<Text>, i: nat, x: Lex, attrs: Props) returns (y: Lex)
    requires Here(lines, i, ContLines(attrs)) && x.mode.InEdges? && x.mode.open.Some?
    requires forall j | 0 <= j < |attrs| :: IsKey(attrs[j].0) && attrs[j].0 != TARGET && Writes(attrs[j].1)
    requires forall line | line in ContLines(attrs) :: FlowEdge(line) == None
    ensures LexFrom(reader, lines, i, x) == LexFrom(reader, lines, i + |ContLines(attrs)|, y)
    ensures y.mode == InEdges(Some(OpenEdge(PutAll(x.mode.open.value.props, attrs), x.mode.open.value.start)))
    ensures y.fields == x.fields && y.edges == x.edges && y.faults == x.faults
    decreases |attrs|
  {
    hide LexFrom, Put, EmitScalar, FlowEdge, ContText, Writes, IsKey, Here;
    if attrs == [] {
      y := x;
    } else {
      var (k, v) := attrs[0];
      var chunk := ContLines(attrs);
      HereFirst(lines, i, chunk);
      assert chunk[0] in chunk && chunk[1..] == ContLines(attrs[1..]);
      assert forall line | line in chunk[1..] :: line in chunk;
      assert Writes(attrs[0].1) && IsKey(attrs[0].0);
      var z := ContLexes(reader, lines, i, x, k, v);
      y := ContLinesLex(reader, lines, i + 1, z, attrs[1..]);
    }
  }

  lemma {:induction false} ContLinesCount(attrs: Props)
    ensures |ContLines(attrs)| == |attrs|
  {
    if attrs != [] {
      ContLinesCount(attrs[1..]);
    }
  }

  /** The first line of a block edge. */
  lemma {:induction false} OpenLexes(reader: Reader, lines: seq<Text>, i: nat, x: Lex, kind: Text) returns (y: Lex)
    requires Writes(kind) && x.mode.InEdges?
    requires Here(lines, i, [DashedText(KeyText(TYPE, EmitScalar(kind, true)))])
    requires FlowEdge(DashedText(KeyText(TYPE, EmitScalar(kind, true)))) == None
    ensures LexFrom(reader, lines, i, x) == LexFrom(reader, lines, i + 1, y)
    ensures y.mode == InEdges(Some(OpenEdge([(TYPE, kind)], i)))
    ensures y.fields == x.fields && y.edges == Flush(x, i).edges && y.faults == Flush(x, i).faults
  {
    hide ViewOf, LexFrom, EmitScalar, ScalarValue, Trim, FlowEdge, DashedText, KeyText, Writes;
    var text := EmitScalar(kind, true);
    EmittedText(kind, true);
    HereFirst(lines, i, [DashedText(KeyText(TYPE, text))]);
    OpenReads(TYPE, text);
    var w := ViewOf(DashedText(KeyText(TYPE, text)));
    OneLineLexes(reader, lines, i, x, w);
    y := Step(x, i, w);
  }

  lemma {:induction false} BlockEdgeLexes(reader: Reader, lines: seq<Text>, i: nat, x: Lex, e: Edge) returns (y: Lex)
    requires EdgeFits(e) && !Flowable(e) && EdgesGood(x) && Here(lines, i, EdgeLines(e))
    ensures LexFrom(reader, lines, i, x) == LexFrom(reader, lines, i + |EdgeLines(e)|, y)
    ensures EdgesSeen(y) == EdgesSeen(x) + [PropsOf(e)]
    ensures EdgesGood(y) && y.fields == x.fields && y.faults == x.faults
  {
    hide LexFrom, FlowEdge, DashedText, KeyText, ContText, EmitScalar, Writes, Put, Here, IsKey, Flowable, Step, Flush, Complete;
    var open := [DashedText(KeyText(TYPE, EmitScalar(e.kind, true)))];
    var all := [(TO, e.to)] + e.attrs;
    NoneLeftOut(e.attrs);
    ToLine(e);
    assert EdgeLines(e) == open + ContLines(all);
    HereSplits(lines, i, open, ContLines(all));
    assert open[0] in EdgeLines(e);
    FlushKeepsEdges(x, i);
    var z := OpenLexes(reader, lines, i, x, e.kind);
    ContLinesCount(all);
    AttrsOfAll(e);
    y := ContLinesLex(reader, lines, i + 1, z, all);
    PutAllAppends([(TYPE, e.kind)], all);
    assert [(TYPE, e.kind)] + all == PropsOf(e);
    CompleteProps(e);
  }

  /** The target is written like an attribute, but quoted when empty; it never is. */
  lemma ToLine(e: Edge)
    requires EdgeFits(e)
    ensures [ContText(TO, EmitScalar(e.to, true))] + ContLines(e.attrs) == ContLines([(TO, e.to)] + e.attrs)
  {
    hide ContText, ScalarValue, Trim, JsonText;
    var all := [(TO, e.to)] + e.attrs;
    assert all[1..] == e.attrs;
    FoldLinesFixes(e.to);
  }

  lemma AttrsOfAll(e: Edge)
    requires EdgeFits(e)
    ensures var all := [(TO, e.to)] + e.attrs;
            && DistinctKeys(all)
            && (forall j | 0 <= j < |all| :: IsKey(all[j].0) && all[j].0 != TARGET && all[j].0 != TYPE && Writes(all[j].1))
  {
    hide FlowEdge, Writes, IsKey;
    ToIsKey();
  }

  lemma ToIsKey()
    ensures IsKey(TO) && IsKey(TYPE)
  {
  }

  lemma CompleteProps(e: Edge)
    requires e.kind != [] && e.to != []
    ensures Complete(PropsOf(e))
  {
    var p := PropsOf(e);
    assert p[0] == (TYPE, e.kind) && p[1..][0] == (TO, e.to);
  }

  lemma {:induction false} EdgesLex(reader: Reader, lines: seq<Text>, i: nat, x: Lex, edges: seq<Edge>) returns (y: Lex)
    requires forall j | 0 <= j < |edges| :: EdgeFits(edges[j])
    requires Here(lines, i, AllEdgeLines(edges)) && EdgesGood(x)
    ensures LexFrom(reader, lines, i, x) == LexFrom(reader, lines, i + |AllEdgeLines(edges)|, y)
    ensures |EdgesSeen(y)| == |EdgesSeen(x)| + |edges| && EdgesSeen(x) <= EdgesSeen(y)
    ensures forall j | 0 <= j < |edges| :: EdgesSeen(y)[|EdgesSeen(x)| + j] == PropsOf(edges[j])
    ensures EdgesGood(y) && y.fields == x.fields && y.faults == x.faults
    decreases |edges|
  {
    hide LexFrom, EdgeLines, EdgeFits, EdgesSeen, EdgesGood, Here, Flowable, PropsOf;
    if edges == [] {
      y := x;
    } else {
      var e := edges[0];
      HereSplits(lines, i, EdgeLines(e), AllEdgeLines(edges[1..]));
      assert EdgeFits(e);
      var z: Lex;
      if Flowable(e) {
        z := FlowLexes(reader, lines, i, x, e);
      } else {
        z := BlockEdgeLexes(reader, lines, i, x, e);
      }
      y := EdgesLex(reader, lines, i + |EdgeLines(e)|, z, edges[1..]);
    }
  }

  // ---------- the whole block ----------

  function AllProps(edges: seq<Edge>): (r: seq<Props>)
    ensures |r| == |edges| && forall k | 0 <= k < |r| :: r[k] == PropsOf(edges[k])
  {
    seq(|edges|, k requires 0 <= k < |edges| => PropsOf(edges[k]))
  }

  lemma {:induction false} PutFieldsAppends(m: Fields, fields: Fields)
    requires DistinctKeys(fields)
    requires forall i, j | 0 <= i < |m| && 0 <= j < |fields| :: m[i].0 != fields[j].0
    ensures PutFields(m, fields) == m + fields
    decreases |fields|
  {
    if fields == [] {
      assert m + [] == m;
    } else {
      var (k, v) := fields[0];
      PutAppends(m, k, v);
      var more := m + [(k, v)];
      PutFieldsAppends(more, fields[1..]);
      assert more + fields[1..] == m + fields;
    }
  }

  /** Each field of `b` is a field of `a`. */
  predicate AmongFields(b: Fields, a: Fields) {
    forall i | 0 <= i < |b| :: b[i] in a
  }

  lemma {:induction false} OthersWithin(fields: Fields)
    requires DistinctKeys(fields)
    ensures AmongFields(Others(fields), fields) && DistinctKeys(Others(fields))
    ensures forall i | 0 <= i < |Others(fields)| :: Others(fields)[i].0 != ID && Others(fields)[i].0 != TYPE
  {
    if fields != [] {
      OthersWithin(fields[1..]);
      var rest := Others(fields[1..]);
      assert fields == [fields[0]] + fields[1..];
      forall i | 0 <= i < |rest|
        ensures rest[i] in fields && rest[i].0 != fields[0].0
      {
        var j :| 0 <= j < |fields[1..]| && fields[1..][j] == rest[i];
        assert fields[j + 1] == rest[i];
      }
    }
  }

  lemma {:induction false} LookupFinds(fields: Fields, k: Text)
    ensures Lookup<Value>(fields, k).Some? ==> (k, Lookup<Value>(fields, k).value) in fields
  {
    if fields != [] && fields[0].0 != k {
      LookupFinds(fields[1..], k);
    }
  }

  lemma OrderedIsDistinct(fields: Fields)
    requires DistinctKeys(fields)
    ensures DistinctKeys(Ordered(fields)) && AmongFields(Ordered(fields), fields)
  {
    hide Lookup, Others;
    OthersWithin(fields);
    LookupFinds(fields, ID);
    LookupFinds(fields, TYPE);
  }

  lemma {:induction false} KeptIsDistinct(fields: Fields)
    requires DistinctKeys(fields)
    ensures DistinctKeys(Kept(fields)) && AmongFields(Kept(fields), fields)
  {
    hide LeftOut;
    if fields != [] {
      KeptIsDistinct(fields[1..]);
      var rest := Kept(fields[1..]);
      forall i | 0 <= i < |rest|
        ensures rest[i] in fields && rest[i].0 != fields[0].0
      {
        var j :| 0 <= j < |fields[1..]| && fields[1..][j] == rest[i];
        assert fields[j + 1] == rest[i];
      }
    }
  }

  lemma {:induction false} HeaderLexes(reader: Reader, lines: seq<Text>, i: nat, x: Lex) returns (y: Lex)
    requires i < |lines| && lines[i] == EDGES + [COLON] && !x.mode.InEdges?
    ensures LexFrom(reader, lines, i, x) == LexFrom(reader, lines, i + 1, y)
    ensures y.fields == x.fields && y.edges == x.edges && y.faults == x.faults && y.mode == InEdges(None)
  {
    hide LexFrom, InlineList, KeyValue;
    assert IsKey(EDGES);
    BareKeyReads(EDGES);
    EmptyReadsBack();
    assert ViewOf(EDGES + [COLON]) == KeyLine(EDGES, []);
    TurnOf(reader, lines, i, x);
    y := Step(x, i, KeyLine(EDGES, []));
  }

  lemma FieldsFitOrdered(n: Node)
    requires NodeFits(n)
    ensures var fs := Ordered(n.fields); forall j | 0 <= j < |fs| :: FieldFits(fs[j].0, fs[j].1)
  {
    hide FieldFits, EdgeFits, Ordered;
    OrderedIsDistinct(n.fields);
    var fs := Ordered(n.fields);
    forall j | 0 <= j < |fs|
      ensures FieldFits(fs[j].0, fs[j].1)
    {
      assert fs[j] in n.fields;
    }
  }

  /** The written lines lex back to the node's fields and edges, without a fault. */
  lemma {:induction false} NodeLexes(reader: Reader, n: Node)
    requires NodeFits(n)
    ensures var lex := Lexed(reader, NodeLines(n));
            lex.faults == [] && lex.fields == Kept(Ordered(n.fields)) && PropsIn(lex.edges) == AllProps(n.edges)
  {
    hide LexFrom, FieldFits, EdgeFits, Ordered, Kept, Here, AllFieldLines, AllEdgeLines, EdgesSeen, EdgesGood, PutFields;
    var lines := NodeLines(n);
    var fields := Ordered(n.fields);
    var head := AllFieldLines(fields);
    FieldsFitOrdered(n);
    HeadIsHere(n);
    var y := FieldsLex(reader, lines, 0, EMPTY, fields);
    OrderedIsDistinct(n.fields);
    KeptIsDistinct(fields);
    PutFieldsAppends([], Kept(fields));
    assert [] + Kept(fields) == Kept(fields);
    if n.edges == [] {
      AtEnd(reader, lines, y);
      assert PropsIn(y.edges) == [];
    } else {
      var z := HeaderLexes(reader, lines, |head|, y);
      NothingSeen(z);
      var w := EdgesLex(reader, lines, |head| + 1, z, n.edges);
      AtEnd(reader, lines, w);
      FlushKeepsEdges(w, |lines|);
      assert EdgesSeen(w) == AllProps(n.edges);
    }
  }

  lemma NothingSeen(x: Lex)
    requires x.edges == [] && x.mode == InEdges(None)
    ensures EdgesSeen(x) == [] && EdgesGood(x)
  {
  }

  lemma HeadIsHere(n: Node)
    ensures var lines, head := NodeLines(n), AllFieldLines(Ordered(n.fields));
            && Here(lines, 0, head)
            && (n.edges == [] ==> |lines| == |head|)
            && (n.edges != [] ==>
                  && |head| < |lines| && lines[|head|] == EDGES + [COLON]
                  && Here(lines, |head| + 1, AllEdgeLines(n.edges))
                  && |head| + 1 + |AllEdgeLines(n.edges)| == |lines|)
  {
    hide AllFieldLines, AllEdgeLines, Ordered;
  }

  // ---------- the text ----------

  /** A written line holds no line break and does not look like a fence. */
  predicate Solid(line: Text) {
    OneLine(line) && line != [] && line[0] != DASH
  }

  predicate AllSolid(lines: seq<Text>) {
    forall i | 0 <= i < |lines| :: Solid(lines[i])
  }

  lemma KeyTextIsSolid(k: Text, t: Text)
    requires IsKey(k) && OneLine(t)
    ensures Solid(KeyText(k, t)) && Solid(k + [COLON])
  {
  }

  lemma DashedIsSolid(t: Text)
    requires OneLine(t)
    ensures Solid(DashedText(t))
  {
  }

  lemma ContIsSolid(k: Text, t: Text)
    requires IsKey(k) && OneLine(t)
    ensures Solid(ContText(k, t))
  {
  }

  lemma {:induction false} JoinItemsIsOneLine(items: seq<Text>)
    requires forall i | 0 <= i < |items| :: Writes(items[i])
    ensures OneLine(JoinItems(items))
  {
    if |items| > 1 {
      JoinItemsIsOneLine(items[1..]);
      assert Writes(items[0]);
    } else if |items| == 1 {
      assert Writes(items[0]);
    }
  }

  lemma {:induction false} ItemLinesAreSolid(items: seq<Text>)
    requires forall i | 0 <= i < |items| :: Writes(items[i])
    ensures AllSolid(ItemLines(items))
  {
    hide DashedText, EmitScalar, Solid;
    if items != [] {
      ItemLinesAreSolid(items[1..]);
      assert Writes(items[0]);
      EmittedIsOneLine(items[0], true);
      DashedIsSolid(EmitScalar(items[0], true));
    }
  }

  lemma FieldLinesAreSolid(k: Text, v: Value)
    requires FieldFits(k, v)
    ensures AllSolid(FieldLines(k, v))
  {
    hide EmitScalar, Solid, KeyText, JoinItems, FlowEdge, IsListField, IsKey, OneLine;
    match v
    case Scalar(t) =>
      EmittedIsOneLine(t, false);
      KeyTextIsSolid(k, EmitScalar(t, false));
    case List(items) =>
      JoinItemsIsOneLine(items);
      BracketsAreOneLine(JoinItems(items));
      KeyTextIsSolid(k, [LBRACKET] + JoinItems(items) + [RBRACKET]);
      ItemLinesAreSolid(items);
  }

  lemma BracketsAreOneLine(t: Text)
    requires OneLine(t)
    ensures OneLine([LBRACKET] + t + [RBRACKET])
  {
  }

  lemma {:induction false} AllFieldLinesAreSolid(fields: Fields)
    requires forall j | 0 <= j < |fields| :: FieldFits(fields[j].0, fields[j].1)
    ensures AllSolid(AllFieldLines(fields))
  {
    hide FieldLines, FieldFits, Solid;
    if fields != [] {
      assert FieldFits(fields[0].0, fields[0].1);
      FieldLinesAreSolid(fields[0].0, fields[0].1);
      AllFieldLinesAreSolid(fields[1..]);
    }
  }

  lemma {:induction false} ContLinesAreSolid(attrs: Props)
    requires forall j | 0 <= j < |attrs| :: IsKey(attrs[j].0) && Writes(attrs[j].1)
    ensures AllSolid(ContLines(attrs))
  {
    hide ContText, EmitScalar, Solid, IsKey;
    if attrs != [] {
      assert IsKey(attrs[0].0) && Writes(attrs[0].1);
      EmittedIsOneLine(attrs[0].1, false);
      ContIsSolid(attrs[0].0, EmitScalar(attrs[0].1, false));
      ContLinesAreSolid(attrs[1..]);
    }
  }

  lemma {:induction false} TailIsOneLine(attrs: Props)
    requires FlowAttrsFit(attrs)
    ensures OneLine(AttrTail(attrs))
    decreases |attrs|
  {
    if attrs != [] {
      assert IsToken(attrs[0].0) && IsToken(attrs[0].1);
      TailIsOneLine(attrs[1..]);
    }
  }

  lemma EdgeLinesAreSolid(e: Edge)
    requires EdgeFits(e)
    ensures AllSolid(EdgeLines(e))
  {
    hide Solid, ContText, EmitScalar, AttrTail, DashedText, FlowEdge, IsKey, KeyText;
    NoneLeftOut(e.attrs);
    ToIsKey();
    if Flowable(e) {
      TailIsOneLine(e.attrs);
      FlowLineIsSolid(e);
    } else {
      EmittedIsOneLine(e.kind, true);
      EmittedIsOneLine(e.to, true);
      KeyTextIsSolid(TYPE, EmitScalar(e.kind, true));
      DashedIsSolid(KeyText(TYPE, EmitScalar(e.kind, true)));
      ContIsSolid(TO, EmitScalar(e.to, true));
      ContLinesAreSolid(e.attrs);
    }
  }

  lemma FlowLineIsSolid(e: Edge)
    requires OneLine(e.kind) && OneLine(e.to) && OneLine(AttrTail(e.attrs))
    ensures Solid(FlowText(e.kind, e.to, e.attrs))
  {
    hide AttrTail;
  }

  lemma {:induction false} AllEdgeLinesAreSolid(edges: seq<Edge>)
    requires forall j | 0 <= j < |edges| :: EdgeFits(edges[j])
    ensures AllSolid(AllEdgeLines(edges))
  {
    hide EdgeLines, EdgeFits, Solid;
    if edges != [] {
      assert EdgeFits(edges[0]);
      EdgeLinesAreSolid(edges[0]);
      AllEdgeLinesAreSolid(edges[1..]);
    }
  }

  lemma NodeLinesAreSolid(n: Node)
    requires NodeFits(n)
    ensures AllSolid(NodeLines(n))
  {
    hide AllFieldLines, AllEdgeLines, FieldFits, EdgeFits, Ordered;
    FieldsFitOrdered(n);
    AllFieldLinesAreSolid(Ordered(n.fields));
    AllEdgeLinesAreSolid(n.edges);
  }

  lemma SplitFirstLine(first: Text, rest: Text)
    requires NL !in first
    ensures SplitLines(first + [NL] + rest) == [first] + SplitLines(rest)
    ensures SplitLines(first) == [first]
  {
    hide FirstNewline;
    FirstLineBefore(first, rest);
    var t := first + [NL] + rest;
    assert t[..|first|] == first && t[|first| + 1..] == rest;
  }

  lemma {:induction false} LinesSplitBack(lines: seq<Text>)
    requires lines != [] && AllSolid(lines)
    ensures SplitLines(JoinLines(lines)) == lines
    decreases |lines|
  {
    hide Solid, SplitLines;
    SolidLine(lines[0]);
    if |lines| > 1 {
      LinesSplitBack(lines[1..]);
      SplitFirstLine(lines[0], JoinLines(lines[1..]));
      assert lines == [lines[0]] + lines[1..];
    } else {
      SplitFirstLine(lines[0], []);
      assert lines == [lines[0]];
    }
  }

  lemma {:induction false} NoFenceInLine(line: Text, rest: Text)
    requires NL !in line
    ensures FenceIn(line + rest) == if FenceIn(rest) < 0 then -1 else FenceIn(rest) + |line|
    decreases |line|
  {
    if line == [] {
      assert line + rest == rest;
    } else {
      NoFenceInLine(line[1..], rest);
      var t := line + rest;
      assert t[0] == line[0] && t[1..] == line[1..] + rest;
    }
  }

  lemma NoFenceHere(rest: Text)
    requires |rest| < 3 || !(FENCE <= rest)
    ensures FenceIn([NL] + rest) == if FenceIn(rest) < 0 then -1 else FenceIn(rest) + 1
  {
    var t := [NL] + rest;
    assert t[1..] == rest;
    assert [NL] + FENCE <= t <==> FENCE <= rest;
  }

  /** The closing fence is the first one after the lines. */
  lemma {:induction false} FenceFollowsLines(lines: seq<Text>, tail: Text)
    requires AllSolid(lines)
    ensures FenceIn(JoinLines(lines) + ([NL] + FENCE + tail)) == |JoinLines(lines)|
    decreases |lines|
  {
    hide FenceIn, Solid;
    var close := [NL] + FENCE + tail;
    FenceAtFront(tail);
    if lines == [] {
      assert [] + close == close;
    } else {
      var first := lines[0];
      SolidLine(first);
      if |lines| == 1 {
        NoFenceInLine(first, close);
      } else {
        FenceFollowsLines(lines[1..], tail);
        var rest := JoinLines(lines[1..]) + close;
        SolidLine(lines[1]);
        assert JoinLines(lines[1..])[0] == lines[1][0];
        assert rest[0] == lines[1][0];
        NoFenceHere(rest);
        NoFenceInLine(first, [NL] + rest);
        assert JoinLines(lines) + close == first + ([NL] + rest);
      }
    }
  }

  lemma FenceAtFront(tail: Text)
    ensures FenceIn([NL] + FENCE + tail) == 0
  {
  }

  lemma SolidLine(line: Text)
    requires Solid(line)
    ensures NL !in line && line != [] && line[0] != DASH
  {
  }

  lemma {:induction false} JoinHasNoCr(lines: seq<Text>)
    requires AllSolid(lines)
    ensures CR !in JoinLines(lines)
  {
    if lines != [] {
      assert Solid(lines[0]) && CR !in lines[0];
      JoinHasNoCr(lines[1..]);
    }
  }

  lemma NoCrUnchanged(t: Text)
    requires CR !in t
    ensures ToLf(t) == t
  {
    ToLfFixes(t);
  }

  lemma {:induction false} ToLfEnds(t: Text)
    requires t != [] && t[0] != CR
    ensures ToLf(t) != [] && ToLf(t)[0] == t[0] && ToLf(t)[|ToLf(t)| - 1] == t[|t| - 1]
  {
    ToLfLast(t);
  }

  lemma {:induction false} ToLfLast(t: Text)
    requires t != []
    ensures ToLf(t) != [] && ToLf(t)[|ToLf(t)| - 1] == t[|t| - 1]
    decreases |t|
  {
    if |t| >= 2 && t[0] == CR && t[1] == NL {
      if |t| > 2 {
        ToLfLast(t[2..]);
      }
    } else if |t| > 1 {
      ToLfLast(t[1..]);
    }
  }

  function BodyTail(body: Text): Text {
    if body == [] then [] else [NL] + body + [NL]
  }

  /** A trimmed body comes back with its line ends normalised. */
  lemma BodyReadsBack(body: Text)
    requires Trim(body) == body
    ensures ToLf(BodyTail(body)) == BodyTail(ToLf(body)) && Trim(BodyTail(ToLf(body))) == ToLf(body)
  {
    hide Trim;
    TrimFixes(body);
    EmptyReadsBack();
    if body != [] {
      ToLfEnds(body);
      ToLfConcat(body, [NL]);
      ToLfConcat([NL], body + [NL]);
      assert [NL] + (body + [NL]) == BodyTail(body);
      NoCrUnchanged([NL]);
      var c := ToLf(body);
      assert [NL] + (c + [NL]) == BodyTail(c);
      TrimInner(c);
    }
  }

  lemma TrimInner(c: Text)
    requires c != [] && !IsWhite(c[0]) && !IsWhite(c[|c| - 1])
    ensures Trim([NL] + c + [NL]) == c
  {
    var s := [NL] + c + [NL];
    assert s[1..] == c + [NL];
    assert TrimStart(s) == c + [NL];
    assert (c + [NL])[..|c|] == c;
  }

  /** The fence splits what was written into its lines and its body. */
  lemma {:induction false} SerializedSplits(n: Node)
    requires NodeFits(n)
    ensures SplitDocument(SerializeNode(n))
         == Some(Document(JoinLines(NodeLines(n)), BodyTail(ToLf(Trim(n.body)))))
  {
    hide NodeLines, Trim, FenceIn, ToLf, NodeFits, BodyTail, JoinLines;
    var lines := JoinLines(NodeLines(n));
    var body := Trim(n.body);
    var open := FENCE + [NL];
    var tail := BodyTail(body);
    NodeLinesAreSolid(n);
    JoinHasNoCr(NodeLines(n));
    TrimIsTrimmed(n.body);
    BodyReadsBack(body);
    var head := open + lines + ([NL] + FENCE + [NL]);
    SerializedShape(n, head, tail);
    NoCrUnchanged(head);
    ToLfConcat(head, tail);
    var tail' := BodyTail(ToLf(body));
    var text := head + tail';
    var after := [NL] + FENCE + ([NL] + tail');
    FenceFollowsLines(NodeLines(n), [NL] + tail');
    assert text[..4] == open;
    assert text[4..] == lines + after;
    assert (lines + after)[..|lines|] == lines;
    assert (lines + after)[|lines| + 4..] == [NL] + tail';
    assert ([NL] + tail')[1..] == tail';
  }

  lemma SerializedShape(n: Node, head: Text, tail: Text)
    requires head == FENCE + [NL] + JoinLines(NodeLines(n)) + ([NL] + FENCE + [NL])
    requires tail == BodyTail(Trim(n.body))
    ensures SerializeNode(n) == head + tail
  {
    hide NodeLines, Trim, JoinLines;
  }

  lemma TrimIsTrimmed(t: Text)
    ensures Trim(Trim(t)) == Trim(t)
  {
    TrimFixes(Trim(t));
    var s := TrimStart(t);
    if Trim(t) != [] {
      assert Trim(t)[0] == s[0];
    }
  }

  // ---------- every field by its name ----------

  lemma {:induction false} LookupAppend(a: Fields, b: Fields, k: Text)
    ensures Lookup<Value>(a + b, k) == if Lookup<Value>(a, k).Some? then Lookup(a, k) else Lookup(b, k)
  {
    if a == [] {
      assert a + b == b;
    } else {
      LookupAppend(a[1..], b, k);
      assert (a + b)[1..] == a[1..] + b;
    }
  }

  lemma {:induction false} LookupOthers(fields: Fields, k: Text)
    ensures Lookup<Value>(Others(fields), k) == if k == ID || k == TYPE then None else Lookup(fields, k)
  {
    if fields != [] {
      LookupOthers(fields[1..], k);
      var front := if fields[0].0 == ID || fields[0].0 == TYPE then [] else [fields[0]];
      LookupAppend(front, Others(fields[1..]), k);
    }
  }

  lemma LookupOnly(fields: Fields, k: Text, other: Text)
    ensures Lookup<Value>(Only(fields, k), other) == if other == k then Lookup(fields, k) else None
  {
  }

  lemma LookupOrdered(fields: Fields, k: Text)
    ensures Lookup<Value>(Ordered(fields), k) == Lookup(fields, k)
  {
    hide Lookup, Only, Others;
    LookupAppend(Only(fields, ID) + Only(fields, TYPE), Others(fields), k);
    LookupAppend(Only(fields, ID), Only(fields, TYPE), k);
    LookupOnly(fields, ID, k);
    LookupOnly(fields, TYPE, k);
    LookupOthers(fields, k);
  }

  lemma {:induction false} LookupKept(fields: Fields, k: Text)
    requires DistinctKeys(fields)
    ensures Lookup<Value>(Kept(fields), k)
         == if Lookup<Value>(fields, k).Some? && LeftOut(k, Lookup<Value>(fields, k).value) then None else Lookup(fields, k)
  {
    if fields != [] {
      LookupKept(fields[1..], k);
      var front := if LeftOut(fields[0].0, fields[0].1) then [] else [fields[0]];
      LookupAppend(front, Kept(fields[1..]), k);
      KeyOnlyOnce(fields, k);
    }
  }

  lemma KeyOnlyOnce(fields: Fields, k: Text)
    requires fields != [] && DistinctKeys(fields)
    ensures fields[0].0 == k ==> Lookup<Value>(fields[1..], k) == None
  {
    if fields[0].0 == k {
      forall j | 0 <= j < |fields[1..]|
        ensures fields[1..][j].0 != k
      {
        assert fields[1..][j] == fields[j + 1];
      }
      LookupMisses(fields[1..], k);
    }
  }

  lemma {:induction false} LookupMisses(fields: Fields, k: Text)
    requires forall j | 0 <= j < |fields| :: fields[j].0 != k
    ensures Lookup<Value>(fields, k) == None
  {
    if fields != [] {
      LookupMisses(fields[1..], k);
    }
  }

  lemma SameFields(fields: Fields, k: Text)
    requires DistinctKeys(fields)
    ensures FieldOf(Kept(Ordered(fields)), k) == FieldOf(fields, k)
  {
    hide Lookup, Kept, Ordered, DistinctKeys;
    OrderedIsDistinct(fields);
    LookupKept(Ordered(fields), k);
    LookupOrdered(fields, k);
    LookupKept(Ordered(fields), REPO);
    LookupOrdered(fields, REPO);
  }

  /** A node that fits the grammar is read back as it was written: without a fault, with every field
      (`id` and `type` first), every edge in order, and its body trimmed and in LF. */
  lemma {:induction false} SerializeThenParse(reader: Reader, n: Node)
    requires NodeFits(n)
    ensures ParseFrontmatter(reader, SerializeNode(n))
         == Some(ReadNode(Kept(Ordered(n.fields)), AllProps(n.edges), ToLf(Trim(n.body))))
    ensures forall k :: FieldOf(Kept(Ordered(n.fields)), k) == FieldOf(n.fields, k)
  {
    hide NodeFits, NodeLines, SplitDocument, SerializeNode, Lexed, Trim, ToLf, BodyTail, JoinLines, SplitLines, FieldOf, Kept,
         Ordered;
    SerializedSplits(n);
    NodeLinesAreSolid(n);
    NodeLexes(reader, n);
    LinesComeBack(reader, n);
    TrimIsTrimmed(n.body);
    BodyReadsBack(Trim(n.body));
    Fits(n);
    forall k
      ensures FieldOf(Kept(Ordered(n.fields)), k) == FieldOf(n.fields, k)
    {
      SameFields(n.fields, k);
    }
  }

  lemma Fits(n: Node)
    requires NodeFits(n)
    ensures DistinctKeys(n.fields)
  {
  }

  /** Splitting the joined lines gives them back; no lines at all read as one empty line, which
      lexes to the same nothing. */
  lemma {:induction false} LinesComeBack(reader: Reader, n: Node)
    requires AllSolid(NodeLines(n))
    ensures var a, b := Lexed(reader, SplitLines(JoinLines(NodeLines(n)))), Lexed(reader, NodeLines(n));
            a.faults == b.faults && a.fields == b.fields && a.edges == b.edges
  {
    hide NodeLines, LexFrom;
    if NodeLines(n) == [] {
      NothingLexes(reader);
    } else {
      LinesSplitBack(NodeLines(n));
    }
  }

  lemma NothingLexes(reader: Reader)
    ensures SplitLines([]) == [[]]
    ensures Lexed(reader, [[]]) == Lexed(reader, []) == EMPTY
  {
    hide LexFrom;
    var lines: seq<Text> := [[]];
    EmptyLineReads();
    OneLineLexes(reader, lines, 0, EMPTY, ViewOf([]));
    AtEnd(reader, lines, EMPTY);
    AtEnd(reader, [], EMPTY);
  }

  lemma EmptyLineReads()
    ensures ViewOf([]).Other?
  {
    assert Run([]) == [];
  }
}
