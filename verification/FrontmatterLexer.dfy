/** The frontmatter lexer: lines into fields, line-ranged entries, edges and faults
    (`lib/kernel/frontmatter.js`). Reading goes on after a fault, as the lenient mode does; the strict
    mode gives up at the first. */
module FrontmatterLexer {
  import opened Common
  import opened ContentText
  import opened FrontmatterScalar
  import opened FrontmatterLines

  datatype Value = Scalar(text: Text) | List(items: seq<Text>)

  type Fields = seq<(Text, Value)>

  datatype EntryKind = ScalarEntry | ListEntry | EdgesEntry

  /** A top-level entry and the lines it covers. */
  datatype Entry = Entry(kind: EntryKind, key: Text, start: nat, end: nat, inline: bool)

  datatype Form = Flow | Block | Inline

  datatype Placed = Placed(props: Props, form: Form, start: nat, end: nat)

  /** A block edge under construction. */
  datatype OpenEdge = OpenEdge(props: Props, start: nat)

  /** What the lines to come may still add to. */
  datatype Mode =
    | Idle
    | Folding(key: Text, raw: Text)
    | Listing(key: Text)
    | InEdges(open: Option<OpenEdge>)

  datatype Lex = Lex(fields: Fields, entries: seq<Entry>, edges: seq<Placed>, faults: seq<nat>, mode: Mode)

  /** The edges themselves, without where they stand. */
  function PropsIn(edges: seq<Placed>): (r: seq<Props>)
    ensures |r| == |edges| && forall k | 0 <= k < |r| :: r[k] == edges[k].props
  {
    seq(|edges|, k requires 0 <= k < |edges| => edges[k].props)
  }

  const EMPTY := Lex([], [], [], [], Idle)

  /** What a nonempty value on an `edges:` line comes to: the edges and the lines they span, or a
      refusal and the lines it skips. Comments alone are no value. */
  datatype InlineEdges = NoValue | Reads(edges: seq<Props>, span: nat) | Refused(span: nat)

  /** The reader of inline edge values, given the lines from the header on. */
  datatype Reader = Reader(read: seq<Text> -> InlineEdges)

  function SpanWithin(span: nat, left: nat): (n: nat)
    requires left > 0
    ensures 1 <= n <= left
  {
    if span < 1 then 1 else if span > left then left else span
  }

  function InlineAt(reader: Reader, lines: seq<Text>, i: nat): InlineEdges
    requires i < |lines|
  {
    match ViewOf(lines[i])
    case KeyLine(k, raw) => if k == EDGES && Trim(raw) != [] then reader.read(lines[i..]) else NoValue
    case _ => NoValue
  }

  // ---------- one line ----------

  function BlockKey(k: Text): Text {
    if k == TARGET then TO else k
  }

  predicate Complete(props: Props) {
    Lookup(props, TYPE).GetOr([]) != [] && Lookup(props, TO).GetOr([]) != []
  }

  /** Close the block edge under construction, if there is one. */
  function Flush(x: Lex, i: nat): (y: Lex)
    ensures y.fields == x.fields && y.entries == x.entries
    ensures y.mode == if x.mode.InEdges? then InEdges(None) else x.mode
  {
    if x.mode.InEdges? && x.mode.open.Some? then
      var o := x.mode.open.value;
      if Complete(o.props) then x.(edges := x.edges + [Placed(o.props, Block, o.start, i)], mode := InEdges(None))
      else x.(faults := x.faults + [o.start], mode := InEdges(None))
    else x
  }

  /** The open entry now reaches line `i`. */
  function ExtendTo(entries: seq<Entry>, i: nat): seq<Entry> {
    if entries == [] then [] else entries[..|entries| - 1] + [entries[|entries| - 1].(end := i + 1)]
  }

  function Extend(x: Lex, i: nat): Lex {
    x.(entries := ExtendTo(x.entries, i))
  }

  function OpenEntry(x: Lex, kind: EntryKind, key: Text, i: nat): seq<Entry> {
    x.entries + [Entry(kind, key, i, i + 1, false)]
  }

  /** The body of a double-quoted scalar that closes: no bare quote, no lone backslash at its end. */
  predicate ClosedDouble(s: Text)
    decreases |s|
  {
    if s == [] then true
    else if s[0] == DQ then false
    else if s[0] == BACKSLASH then |s| >= 2 && ClosedDouble(s[2..])
    else ClosedDouble(s[1..])
  }

  /** The body of a single-quoted one: quotes only in pairs. */
  predicate ClosedSingle(s: Text)
    decreases |s|
  {
    if s == [] then true
    else if s[0] == SQ then |s| >= 2 && s[1] == SQ && ClosedSingle(s[2..])
    else ClosedSingle(s[1..])
  }

  /** A quoted scalar whose closing quote has not arrived. */
  predicate QuoteOpen(t: Text) {
    t != [] && IsQuote(t[0])
    && !(WhollyQuoted(t, DQ) && ClosedDouble(t[1..|t| - 1]))
    && !(WhollyQuoted(t, SQ) && ClosedSingle(t[1..|t| - 1]))
  }

  function TextOf(fields: Fields, k: Text): Text {
    var v: Option<Value> := Lookup(fields, k);
    if v.Some? && v.value.Scalar? then v.value.text else []
  }

  function ItemsOf(fields: Fields, k: Text): seq<Text> {
    var v: Option<Value> := Lookup(fields, k);
    if v.Some? && v.value.List? then v.value.items else []
  }

  function Fold(x: Lex, more: Text): Lex
    requires x.mode.Folding?
  {
    var k := x.mode.key;
    if QuoteOpen(Trim(x.mode.raw)) then
      var raw := x.mode.raw + [SPACE] + Trim(more);
      x.(fields := Put(x.fields, k, Scalar(ScalarValue(raw))), mode := Folding(k, raw))
    else x.(fields := Put(x.fields, k, Scalar(TextOf(x.fields, k) + [SPACE] + Trim(more))))
  }

  function KeyStep(x: Lex, i: nat, k: Text, raw: Text): Lex {
    if k == EDGES then x.(entries := OpenEntry(x, EdgesEntry, k, i), mode := InEdges(None))
    else if IsListField(k) && Trim(raw) == [] then
      x.(fields := Put(x.fields, k, List([])), entries := OpenEntry(x, ListEntry, k, i), mode := Listing(k))
    else
      x.(fields := Put(x.fields, k, Scalar(ScalarValue(raw))), entries := OpenEntry(x, ScalarEntry, k, i),
         mode := Folding(k, raw))
  }

  function EdgeBlockStep(x: Lex, i: nat, v: View): Lex
    requires x.mode.InEdges? && v.Other?
  {
    if v.open.Some? then
      var (k, raw) := v.open.value;
      Extend(Flush(x, i).(mode := InEdges(Some(OpenEdge([(BlockKey(k), ScalarValue(Trim(raw)))], i)))), i)
    else if x.mode.open.Some? && v.cont.Some? then
      var (k, raw) := v.cont.value;
      var o := x.mode.open.value;
      Extend(x.(mode := InEdges(Some(o.(props := Put(o.props, BlockKey(k), ScalarValue(Trim(raw))))))), i)
    else if v.blank then Extend(x, i)
    else x.(faults := x.faults + [i])
  }

  function Step(x: Lex, i: nat, v: View): Lex {
    match v
    case ListLine(k, items) =>
      var y := Flush(x, i);
      y.(fields := Put(y.fields, k, List(items)), entries := OpenEntry(y, ListEntry, k, i), mode := Idle)
    case KeyLine(k, raw) => KeyStep(Flush(x, i), i, k, raw)
    case FlowLine(props) =>
      var y := Flush(x, i);
      var z := y.(edges := y.edges + [Placed(props, Flow, i, i + 1)]);
      if z.mode.InEdges? then Extend(z, i) else z
    case Other(_, _, item, folded, _) =>
      match x.mode
      case InEdges(_) => EdgeBlockStep(x, i, v)
      case Listing(k) =>
        if item.Some? then
          Extend(x.(fields := Put(x.fields, k, List(ItemsOf(x.fields, k) + [ScalarValue(Trim(item.value))]))), i)
        else x
      case Folding(_, _) => if folded.Some? then Extend(Fold(x, folded.value), i) else x
      case Idle => x
  }

  function PlaceAll(edges: seq<Props>, start: nat, end: nat): (r: seq<Placed>)
    ensures |r| == |edges| && forall k | 0 <= k < |r| :: r[k] == Placed(edges[k], Inline, start, end)
  {
    seq(|edges|, k requires 0 <= k < |edges| => Placed(edges[k], Inline, start, end))
  }

  /** The header's entry now reaches line `end`. */
  function HeadTo(entries: seq<Entry>, end: nat, inline: bool): seq<Entry> {
    if entries == [] then []
    else entries[..|entries| - 1] + [entries[|entries| - 1].(end := end, inline := inline)]
  }

  /** What a value on an `edges:` header adds, and where reading goes on; any other line adds nothing. */
  function HeaderValue(reader: Reader, lines: seq<Text>, i: nat, entries: seq<Entry>, edges: seq<Placed>,
                       faults: seq<nat>): (r: (seq<Entry>, seq<Placed>, seq<nat>, nat))
    requires i < |lines|
    ensures i < r.3 <= |lines|
  {
    match InlineAt(reader, lines, i)
    case NoValue => (entries, edges, faults, i + 1)
    case Reads(es, span) =>
      var j := i + SpanWithin(span, |lines| - i);
      (HeadTo(entries, j, true), edges + PlaceAll(es, i, j), faults, j)
    case Refused(span) =>
      var j := i + SpanWithin(span, |lines| - i);
      (HeadTo(entries, j, false), edges, faults + [i], j)
  }

  /** The line at `i`, or the lines an inline edge value on it spans. */
  function Turn(reader: Reader, lines: seq<Text>, i: nat, x: Lex): (r: (Lex, nat))
    requires i < |lines|
    ensures i < r.1 <= |lines|
  {
    var y := Step(x, i, ViewOf(lines[i]));
    var (entries, edges, faults, j) := HeaderValue(reader, lines, i, y.entries, y.edges, y.faults);
    (y.(entries := entries, edges := edges, faults := faults), j)
  }

  function LexFrom(reader: Reader, lines: seq<Text>, i: nat, x: Lex): Lex
    requires i <= |lines|
    decreases |lines| - i
  {
    if i == |lines| then Flush(x, i)
    else
      var (y, j) := Turn(reader, lines, i, x);
      LexFrom(reader, lines, j, y)
  }

  function Lexed(reader: Reader, lines: seq<Text>): Lex {
    LexFrom(reader, lines, 0, EMPTY)
  }

  // ---------- the line loop ----------

  /** The mode the loop's variables stand for. */
  function ModeOf(lastKey: Option<Text>, lastRaw: Text, blockListKey: Option<Text>, inEdgesBlock: bool,
                  edgeBuf: Option<Props>, edgeStart: nat): Mode {
    if inEdgesBlock then InEdges(if edgeBuf.Some? then Some(OpenEdge(edgeBuf.value, edgeStart)) else None)
    else if blockListKey.Some? then Listing(blockListKey.value)
    else if lastKey.Some? then Folding(lastKey.value, lastRaw)
    else Idle
  }

  method FlushEdgeBuf(edgeBuf: Option<Props>, edgeStart: nat, i: nat, edges: seq<Placed>, faults: seq<nat>)
    returns (edges': seq<Placed>, faults': seq<nat>)
    ensures var x := Lex([], [], edges, faults, InEdges(if edgeBuf.Some? then Some(OpenEdge(edgeBuf.value, edgeStart)) else None));
            edges' == Flush(x, i).edges && faults' == Flush(x, i).faults
  {
    edges', faults' := edges, faults;
    if edgeBuf.None? {
      return;
    }
    if !Complete(edgeBuf.value) {
      faults' := faults + [edgeStart];
      return;
    }
    edges' := edges + [Placed(edgeBuf.value, Block, edgeStart, i)];
  }

  /** Read an inline value on an `edges:` header. */
  method ReadHeaderValue(reader: Reader, lines: seq<Text>, i: nat, raw: Text, entries: seq<Entry>,
                         edges: seq<Placed>, faults: seq<nat>)
    returns (entries': seq<Entry>, edges': seq<Placed>, faults': seq<nat>, next: nat)
    requires i < |lines| && ViewOf(lines[i]) == KeyLine(EDGES, raw)
    ensures (entries', edges', faults', next) == HeaderValue(reader, lines, i, entries, edges, faults)
  {
    hide ViewOf, Trim;
    entries', edges', faults', next := entries, edges, faults, i + 1;
    if Trim(raw) != [] {
      match reader.read(lines[i..]) {
        case NoValue =>
        case Reads(es, span) =>
          next := i + SpanWithin(span, |lines| - i);
          entries' := HeadTo(entries, next, true);
          edges' := edges + PlaceAll(es, i, next);
        case Refused(span) =>
          next := i + SpanWithin(span, |lines| - i);
          entries' := HeadTo(entries, next, false);
          faults' := faults + [i];
      }
    }
  }

  /** A line under `edges:` that is no flow edge: it opens a block edge, goes on with one, is blank,
      or is a fault. */
  method EdgeBlockLine(line: View, i: nat, entries: seq<Entry>, edges: seq<Placed>, faults: seq<nat>,
                       edgeBuf: Option<Props>, edgeStart: nat, ghost fields: Fields)
    returns (entries': seq<Entry>, edges': seq<Placed>, faults': seq<nat>, edgeBuf': Option<Props>, edgeStart': nat)
    requires line.Other?
    ensures Lex(fields, entries', edges', faults', ModeOf(None, [], None, true, edgeBuf', edgeStart'))
         == EdgeBlockStep(Lex(fields, entries, edges, faults, ModeOf(None, [], None, true, edgeBuf, edgeStart)), i, line)
  {
    hide Complete, ScalarValue, Trim, Put;
    entries', edges', faults', edgeBuf', edgeStart' := entries, edges, faults, edgeBuf, edgeStart;
    if line.open.Some? {
      edges', faults' := FlushEdgeBuf(edgeBuf, edgeStart, i, edges, faults);
      var (k, raw) := line.open.value;
      edgeBuf', edgeStart' := Some([(BlockKey(k), ScalarValue(Trim(raw)))]), i;
      entries' := ExtendTo(entries, i);
    } else if edgeBuf.Some? && line.cont.Some? {
      var (k, raw) := line.cont.value;
      edgeBuf' := Some(Put(edgeBuf.value, BlockKey(k), ScalarValue(Trim(raw))));
      entries' := ExtendTo(entries, i);
    } else if line.blank {
      entries' := ExtendTo(entries, i);
    } else {
      faults' := faults + [i];
    }
  }

  /** The loop over the lines. */
  method LexFrontmatter(reader: Reader, lines: seq<Text>) returns (r: Lex)
    ensures r == Lexed(reader, lines)
  {
    hide ViewOf, LexFrom, Complete, QuoteOpen, ScalarValue, Trim, Put, IsListField, Lookup, HeaderValue, EdgeBlockStep;
    var fields: Fields := [];
    var entries: seq<Entry> := [];
    var edges: seq<Placed> := [];
    var faults: seq<nat> := [];
    var lastKey: Option<Text> := None;
    var lastRaw: Text := [];
    var blockListKey: Option<Text> := None;
    var inEdgesBlock := false;
    var edgeBuf: Option<Props> := None;
    var edgeStart: nat := 0;
    var i := 0;
    while i < |lines|
      invariant i <= |lines|
      invariant !inEdgesBlock ==> edgeBuf.None?
      invariant inEdgesBlock ==> blockListKey.None? && lastKey.None?
      invariant LexFrom(reader, lines, i, Lex(fields, entries, edges, faults,
                          ModeOf(lastKey, lastRaw, blockListKey, inEdgesBlock, edgeBuf, edgeStart)))
             == Lexed(reader, lines)
    {
      ghost var x := Lex(fields, entries, edges, faults,
                         ModeOf(lastKey, lastRaw, blockListKey, inEdgesBlock, edgeBuf, edgeStart));
      TurnOf(reader, lines, i, x);
      NoHeaderValue(reader, lines, i, Step(x, i, ViewOf(lines[i])));
      var line := ViewOf(lines[i]);
      var next := i + 1;
      if line.ListLine? {
        edges, faults := FlushEdgeBuf(edgeBuf, edgeStart, i, edges, faults);
        edgeBuf := None;
        inEdgesBlock := false;
        fields := Put(fields, line.key, List(line.items));
        entries := entries + [Entry(ListEntry, line.key, i, i + 1, false)];
        lastKey, blockListKey := None, None;
      } else if line.KeyLine? {
        edges, faults := FlushEdgeBuf(edgeBuf, edgeStart, i, edges, faults);
        edgeBuf := None;
        if line.key == EDGES {
          inEdgesBlock := true;
          entries := entries + [Entry(EdgesEntry, EDGES, i, i + 1, false)];
          lastKey, blockListKey := None, None;
          entries, edges, faults, next := ReadHeaderValue(reader, lines, i, line.raw, entries, edges, faults);
        } else if IsListField(line.key) && Trim(line.raw) == [] {
          inEdgesBlock := false;
          fields := Put(fields, line.key, List([]));
          entries := entries + [Entry(ListEntry, line.key, i, i + 1, false)];
          lastKey, blockListKey := Some(line.key), Some(line.key);
        } else {
          inEdgesBlock := false;
          fields := Put(fields, line.key, Scalar(ScalarValue(line.raw)));
          entries := entries + [Entry(ScalarEntry, line.key, i, i + 1, false)];
          lastKey, lastRaw, blockListKey := Some(line.key), line.raw, None;
        }
      } else if line.FlowLine? {
        edges, faults := FlushEdgeBuf(edgeBuf, edgeStart, i, edges, faults);
        edgeBuf := None;
        edges := edges + [Placed(line.props, Flow, i, i + 1)];
        if inEdgesBlock {
          entries := ExtendTo(entries, i);
        }
      } else if inEdgesBlock {
        entries, edges, faults, edgeBuf, edgeStart :=
          EdgeBlockLine(line, i, entries, edges, faults, edgeBuf, edgeStart, fields);
      } else if blockListKey.Some? {
        if line.item.Some? {
          fields := Put(fields, blockListKey.value,
                        List(ItemsOf(fields, blockListKey.value) + [ScalarValue(Trim(line.item.value))]));
          entries := ExtendTo(entries, i);
        }
      } else if line.folded.Some? && lastKey.Some? {
        var more := Trim(line.folded.value);
        if QuoteOpen(Trim(lastRaw)) {
          lastRaw := lastRaw + [SPACE] + more;
          fields := Put(fields, lastKey.value, Scalar(ScalarValue(lastRaw)));
        } else {
          fields := Put(fields, lastKey.value, Scalar(TextOf(fields, lastKey.value) + [SPACE] + more));
        }
        entries := ExtendTo(entries, i);
      }
      i := next;
    }
    ghost var last := Lex(fields, entries, edges, faults,
                          ModeOf(lastKey, lastRaw, blockListKey, inEdgesBlock, edgeBuf, edgeStart));
    AtEnd(reader, lines, last);
    edges, faults := FlushEdgeBuf(edgeBuf, edgeStart, i, edges, faults);
    edgeBuf := None;
    r := Lex(fields, entries, edges, faults,
             ModeOf(lastKey, lastRaw, blockListKey, inEdgesBlock, edgeBuf, edgeStart));
  }

  lemma {:induction false} NoHeaderValue(reader: Reader, lines: seq<Text>, i: nat, y: Lex)
    requires i < |lines|
    ensures var v := ViewOf(lines[i]);
            !(v.KeyLine? && v.key == EDGES) ==>
              HeaderValue(reader, lines, i, y.entries, y.edges, y.faults) == (y.entries, y.edges, y.faults, i + 1)
  {
    hide ViewOf;
  }

  lemma {:induction false} TurnOf(reader: Reader, lines: seq<Text>, i: nat, x: Lex)
    requires i < |lines|
    ensures var (y, j) := Turn(reader, lines, i, x); LexFrom(reader, lines, i, x) == LexFrom(reader, lines, j, y)
  {
    hide Turn;
  }

  lemma {:induction false} AtEnd(reader: Reader, lines: seq<Text>, x: Lex)
    ensures LexFrom(reader, lines, |lines|, x) == Flush(x, |lines|)
  {
    hide Flush;
  }
}
