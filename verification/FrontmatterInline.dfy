/** The reader of inline `edges:` values: the lines of one gathered up to its closing bracket, and a JSON array or a YAML
    flow sequence of flat maps read from them (`lib/kernel/frontmatter.js`; YAML 1.2 section 7.4). */
module FrontmatterInline {
  import opened Common
  import opened ContentText
  import opened FrontmatterScalar
  import opened FrontmatterLines
  import opened FrontmatterLexer
  import opened FrontmatterRoundTrip
  import opened FrontmatterCore
  import opened FrontmatterMarks
  import opened FrontmatterExpand

  // ---------- flow text outside its quotes ----------

  /** The depth of brackets, the quote that is open, and the last character that is no white space. */
  datatype Scan = Scan(depth: int, quote: Option<Unit>, prev: Option<Unit>)

  const OPENING := Scan(0, None, None)

  /** A character outside any quoted scalar, and the depth it leaves. */
  datatype Spot = Spot(at: nat, depth: int)

  /** A quote opens a scalar only where one can start. */
  predicate MayQuote(prev: Option<Unit>) {
    prev.None? || prev.value == LBRACKET || prev.value == LBRACE || prev.value == COMMA || prev.value == COLON
  }

  /** The state behind the character at `i`, where reading goes on, and whether the character was outside quotes. */
  function ScanStep(t: Text, i: nat, s: Scan): (r: (Scan, nat, bool))
    requires i < |t|
    ensures i < r.1
  {
    var c := t[i];
    if s.quote.Some? then
      if s.quote.value == DQ && c == BACKSLASH then (s, i + 2, false)
      else if s.quote.value == SQ && c == SQ && i + 1 < |t| && t[i + 1] == SQ then (s, i + 2, false)
      else if c == s.quote.value then (s.(quote := None, prev := Some(c)), i + 1, false)
      else (s, i + 1, false)
    else if IsQuote(c) && MayQuote(s.prev) then (s.(quote := Some(c)), i + 1, false)
    else
      var depth :=
        if c == LBRACKET || c == LBRACE then s.depth + 1
        else if c == RBRACKET || c == RBRACE then s.depth - 1
        else s.depth;
      (s.(depth := depth, prev := if IsWhite(c) then s.prev else Some(c)), i + 1, true)
  }

  function SpotsFrom(t: Text, i: nat, s: Scan): seq<Spot>
    decreases |t| - i
  {
    if i >= |t| then []
    else
      var (s', j, outside) := ScanStep(t, i, s);
      (if outside then [Spot(i, s'.depth)] else []) + SpotsFrom(t, j, s')
  }

  /** Spots from position `i` of `n` on, each behind the one before it. */
  predicate Ascending(spots: seq<Spot>, i: nat, n: nat) {
    && (forall k | 0 <= k < |spots| :: i <= spots[k].at < n)
    && forall j, k | 0 <= j < k < |spots| :: spots[j].at < spots[k].at
  }

  lemma {:induction false} SpotsInOrder(t: Text, i: nat, s: Scan)
    ensures Ascending(SpotsFrom(t, i, s), i, |t|)
    decreases |t| - i
  {
    hide ScanStep;
    if i < |t| {
      var (s', j, outside) := ScanStep(t, i, s);
      SpotsInOrder(t, j, s');
    }
  }

  function ScanEnd(t: Text, i: nat, s: Scan): Scan
    decreases |t| - i
  {
    if i >= |t| then s
    else
      var (s', j, _) := ScanStep(t, i, s);
      ScanEnd(t, j, s')
  }

  lemma ScanOn(t: Text, i: nat, s: Scan)
    requires i < |t|
    ensures var (s', j, outside) := ScanStep(t, i, s);
            && SpotsFrom(t, i, s) == (if outside then [Spot(i, s'.depth)] else []) + SpotsFrom(t, j, s')
            && ScanEnd(t, i, s) == ScanEnd(t, j, s')
  {
    hide ScanStep;
  }

  lemma ScanDone(t: Text, i: nat, s: Scan)
    requires i >= |t|
    ensures SpotsFrom(t, i, s) == [] && ScanEnd(t, i, s) == s
  {
  }

  lemma Joined<T>(a: seq<T>, b: seq<T>, c: seq<T>)
    ensures a + (b + c) == a + b + c
  {
  }

  /** One character of the walk. */
  method ScanCharacter(text: Text, i: nat, depth: int, q: Option<Unit>, prev: Option<Unit>)
    returns (depth': int, q': Option<Unit>, prev': Option<Unit>, next: nat, outside: bool)
    requires i < |text|
    ensures (Scan(depth', q', prev'), next, outside) == ScanStep(text, i, Scan(depth, q, prev))
  {
    var c := text[i];
    depth', q', prev', next, outside := depth, q, prev, i + 1, false;
    if q.Some? {
      if q.value == DQ && c == BACKSLASH {
        next := i + 2;
      } else if q.value == SQ && c == SQ && i + 1 < |text| && text[i + 1] == SQ {
        next := i + 2;
      } else if c == q.value {
        q', prev' := None, Some(c);
      }
    } else if IsQuote(c) && MayQuote(prev) {
      q' := Some(c);
    } else {
      if c == LBRACKET || c == LBRACE {
        depth' := depth + 1;
      } else if c == RBRACKET || c == RBRACE {
        depth' := depth - 1;
      }
      outside := true;
      if !IsWhite(c) {
        prev' := Some(c);
      }
    }
  }

  /** The walk over the text. */
  method ScanFlow(text: Text) returns (spots: seq<Spot>, depth: int, quoted: bool)
    ensures spots == SpotsFrom(text, 0, OPENING)
    ensures depth == ScanEnd(text, 0, OPENING).depth && quoted == ScanEnd(text, 0, OPENING).quote.Some?
  {
    hide SpotsFrom, ScanEnd, ScanStep;
    var q: Option<Unit> := None;
    var prev: Option<Unit> := None;
    var i := 0;
    spots, depth := [], 0;
    while i < |text|
      invariant spots + SpotsFrom(text, i, Scan(depth, q, prev)) == SpotsFrom(text, 0, OPENING)
      invariant ScanEnd(text, i, Scan(depth, q, prev)) == ScanEnd(text, 0, OPENING)
    {
      ghost var s := Scan(depth, q, prev);
      ScanOn(text, i, s);
      var at := i;
      var outside: bool;
      depth, q, prev, i, outside := ScanCharacter(text, i, depth, q, prev);
      ghost var rest := SpotsFrom(text, i, Scan(depth, q, prev));
      Joined(spots, if outside then [Spot(at, depth)] else [], rest);
      if outside {
        spots := spots + [Spot(at, depth)];
      }
    }
    ScanDone(text, i, Scan(depth, q, prev));
    quoted := q.Some?;
  }

  /** Every bracket and quote that opens closes. */
  predicate FlowClosed(t: Text) {
    var end := ScanEnd(t, 0, OPENING);
    end.depth <= 0 && end.quote.None?
  }

  /** Where a comment begins, or the end of the line. */
  function CommentAt(line: Text, spots: seq<Spot>): (n: nat)
    requires Ascending(spots, 0, |line|)
    ensures n <= |line|
  {
    if spots == [] then |line|
    else
      var i := spots[0].at;
      if line[i] == HASH && (i == 0 || IsWhite(line[i - 1])) then i else CommentAt(line, spots[1..])
  }

  function StripComment(line: Text): Text {
    SpotsInOrder(line, 0, OPENING);
    TrimEnd(line[..CommentAt(line, SpotsFrom(line, 0, OPENING))])
  }

  /** The text from `from` on, cut at each top-level comma among the spots. */
  function CutAt(t: Text, from: nat, spots: seq<Spot>): (r: seq<Text>)
    requires from <= |t| && Ascending(spots, from, |t|)
    ensures r != []
    decreases |spots|
  {
    if spots == [] then [t[from..]]
    else
      var s := spots[0];
      if t[s.at] == COMMA && s.depth == 0 then [t[from..s.at]] + CutAt(t, s.at + 1, spots[1..])
      else CutAt(t, from, spots[1..])
  }

  function SplitTopLevel(t: Text): seq<Text> {
    SpotsInOrder(t, 0, OPENING);
    CutAt(t, 0, SpotsFrom(t, 0, OPENING))
  }

  // ---------- the edges of a value ----------

  /** A member of a flat map: a scalar as a string, or something nested. */
  datatype Member = Flat(text: Text) | Nested

  type Members = seq<(Text, Member)>

  /** What `JSON.parse` makes of a text, as far as it matters here. */
  datatype Json =
    | NotJson
    | Array(items: seq<Item>)
    | Object(members: seq<(Text, Option<seq<Item>>)>)
    | Neither

  datatype Item = Map(members: Members) | NoMap

  function PutMembers(props: Props, members: Members): Option<Props>
    decreases |members|
  {
    if members == [] then Some(props)
    else
      var (k, v) := members[0];
      if !IsKey(k) || v.Nested? then None
      else PutMembers(Put(props, if k == TARGET then TO else k, v.text), members[1..])
  }

  /** An edge, if every key is one the block grammar has and type and target are there. */
  function EdgeFromMap(members: Members): Option<Props> {
    match PutMembers([], members)
    case None => None
    case Some(props) => if Complete(props) then Some(props) else None
  }

  function EdgesFromItems(items: seq<Item>): Option<seq<Props>> {
    if items == [] then Some([])
    else if items[0].NoMap? then None
    else
      match EdgeFromMap(items[0].members)
      case None => None
      case Some(e) =>
        match EdgesFromItems(items[1..])
        case None => None
        case Some(es) => Some([e] + es)
  }

  const OUTBOUND: Text := [0x6F, 0x75, 0x74, 0x62, 0x6F, 0x75, 0x6E, 0x64]
  const INBOUND: Text := [0x69, 0x6E, 0x62, 0x6F, 0x75, 0x6E, 0x64]
  const NULL: Text := [0x6E, 0x75, 0x6C, 0x6C]
  const TILDE: Text := [0x7E]

  predicate Ends(t: Text, u: Unit) {
    t != [] && t[|t| - 1] == u
  }

  predicate Starts(t: Text, u: Unit) {
    t != [] && t[0] == u
  }

  /** The text without its first and last character. */
  function Inside(t: Text): Text {
    if |t| < 2 then [] else t[1..|t| - 1]
  }

  /** The object form: the outbound edges, the inbound ones ignored. */
  function EdgesFromObject(json: Text -> Json, text: Text): Option<seq<Props>> {
    if !Ends(text, RBRACE) || !json(text).Object? then None
    else
      var members := json(text).members;
      var outbound: Option<Option<seq<Item>>> := Lookup(members, OUTBOUND);
      var inbound: Option<Option<seq<Item>>> := Lookup(members, INBOUND);
      if members == [] then (if Trim(Inside(text)) == [] then Some([]) else None)
      else if outbound.None? || (exists k | 0 <= k < |members| :: members[k].0 != OUTBOUND && members[k].0 != INBOUND) then None
      else if |SplitTopLevel(Inside(text))| != |members| then None
      else if outbound.value.None? || (inbound.Some? && inbound.value.None?) then None
      else EdgesFromItems(outbound.value.value)
  }

  function Trimmed(pieces: seq<Text>): (r: seq<Text>)
    ensures |r| == |pieces| && forall k | 0 <= k < |r| :: r[k] == Trim(pieces[k])
  {
    seq(|pieces|, k requires 0 <= k < |pieces| => Trim(pieces[k]))
  }

  /** The pieces between top-level commas, a trailing comma allowed. */
  function Pieces(t: Text): seq<Text> {
    var pieces := Trimmed(SplitTopLevel(t));
    if pieces != [] && pieces[|pieces| - 1] == [] then pieces[..|pieces| - 1] else pieces
  }

  /** `^(?:"([\w-]+)"|'([\w-]+)'|([\w-]+))\s*:\s*([\s\S]*)$`. */
  function Pair(t: Text): Option<(Text, Text)> {
    var quoted := t != [] && IsQuote(t[0]);
    var k := Run(if quoted then t[1..] else t);
    var n := if quoted then |k| + 2 else |k|;
    if k == [] || n > |t| || (quoted && t[n - 1] != t[0]) then None
    else
      var rest := TrimStart(t[n..]);
      if Starts(rest, COLON) then Some((k, TrimStart(rest[1..]))) else None
  }

  function MembersOf(pairs: seq<Text>): Option<Members> {
    if pairs == [] then Some([])
    else
      match Pair(pairs[0])
      case None => None
      case Some((k, rest)) =>
        var raw := Trim(rest);
        if Starts(raw, LBRACKET) || Starts(raw, LBRACE) then None
        else
          match MembersOf(pairs[1..])
          case None => None
          case Some(ms) => Some([(k, Flat(ScalarValue(raw)))] + ms)
  }

  function EdgesFromFlow(items: seq<Text>): Option<seq<Props>> {
    if items == [] then Some([])
    else if !Starts(items[0], LBRACE) || !Ends(items[0], RBRACE) then None
    else
      match MembersOf(Pieces(Inside(items[0])))
      case None => None
      case Some(members) =>
        match EdgeFromMap(members)
        case None => None
        case Some(e) =>
          match EdgesFromFlow(items[1..])
          case None => None
          case Some(es) => Some([e] + es)
  }

  function ParseInlineEdges(json: Text -> Json, value: Text): Option<seq<Props>> {
    var text := Trim(value);
    if text == [LBRACKET, RBRACKET] || text == TILDE || text == NULL then Some([])
    else if Starts(text, LBRACE) then EdgesFromObject(json, text)
    else if !Starts(text, LBRACKET) || !Ends(text, RBRACKET) then None
    else
      match json(text)
      case Array(items) => EdgesFromItems(items)
      case NotJson => EdgesFromFlow(Pieces(Inside(text)))
      case _ => None
  }

  // ---------- the lines of a value ----------

  /** A value that may span lines, read on from line `j` until its brackets close or the lines end. */
  function Gather(value: Text, lines: seq<Text>, j: nat): (r: (Text, nat))
    requires j <= |lines|
    ensures j <= r.1 <= |lines|
    decreases |lines| - j
  {
    if FlowClosed(value) || j == |lines| then (value, j)
    else Gather(value + [NL] + StripComment(lines[j]), lines, j + 1)
  }

  /** The first line from `k` on that is a top-level key, or `n`. */
  function NextKey(lines: seq<Text>, k: nat, n: nat): (r: nat)
    requires k <= n <= |lines|
    ensures k <= r <= n
    decreases n - k
  {
    if k == n || KeyValue(lines[k]).Some? || InlineList(lines[k]).Some? then k else NextKey(lines, k + 1, n)
  }

  function Gathered(value: Text, lines: seq<Text>): (r: (Text, nat))
    requires lines != []
    ensures 1 <= r.1 <= |lines|
  {
    if Starts(value, LBRACKET) || Starts(value, LBRACE) then Gather(value, lines, 1) else (value, 1)
  }

  function ReadValue(json: Text -> Json, lines: seq<Text>): InlineEdges {
    if lines == [] || !ViewOf(lines[0]).KeyLine? then NoValue
    else
      var first := StripComment(Trim(ViewOf(lines[0]).raw));
      if first == [] then NoValue
      else
        var (value, n) := Gathered(first, lines);
        match ParseInlineEdges(json, value)
        case Some(es) => Reads(es, n)
        case None => Refused(if FlowClosed(value) then n else NextKey(lines, 1, n))
  }

  function FlowReader(json: Text -> Json): Reader {
    Reader((lines: seq<Text>) => ReadValue(json, lines))
  }

  /** The gathering loop. */
  method GatherValue(lines: seq<Text>, raw: Text) returns (value: Text, n: nat)
    requires lines != []
    ensures (value, n) == Gathered(StripComment(Trim(raw)), lines)
  {
    hide FlowClosed, StripComment, Trim;
    value := StripComment(Trim(raw));
    n := 1;
    if Starts(value, LBRACKET) || Starts(value, LBRACE) {
      while !FlowClosed(value) && n < |lines|
        invariant 1 <= n <= |lines|
        invariant Gather(value, lines, n) == Gather(StripComment(Trim(raw)), lines, 1)
      {
        value := value + [NL] + StripComment(lines[n]);
        n := n + 1;
      }
    }
  }

  // ---------- what the lexer asks of its reader ----------

  /** A value whose brackets have closed is gathered the same whatever follows. */
  lemma {:induction false} GatherIsLocal(value: Text, s: seq<Text>, t: seq<Text>, j: nat)
    requires j <= |s| && Gather(value, s, j).1 < |s|
    ensures var (v, n) := Gather(value, s, j); Gather(value, s[..n] + t, j) == (v, n)
    decreases |s| - j
  {
    hide FlowClosed, StripComment;
    if !FlowClosed(value) {
      var (v, n) := Gather(value, s, j);
      assert j < n;
      assert (s[..n] + t)[j] == s[j];
      GatherIsLocal(value + [NL] + StripComment(s[j]), s, t, j + 1);
    }
  }

  lemma GatheredIsLocal(value: Text, s: seq<Text>, t: seq<Text>)
    requires s != [] && Gathered(value, s).1 < |s|
    ensures var (v, n) := Gathered(value, s); Gathered(value, s[..n] + t) == (v, n)
  {
    hide FlowClosed, StripComment, Gather;
    if Starts(value, LBRACKET) || Starts(value, LBRACE) {
      GatherIsLocal(value, s, t, 1);
    }
  }

  lemma ReadsIsLocal(json: Text -> Json, s: seq<Text>, t: seq<Text>)
    ensures Settled(FlowReader(json), s, t)
  {
    hide ParseInlineEdges, Gathered, StripComment, Trim, ViewOf, FlowClosed;
    if s != [] && ReadValue(json, s).Reads? {
      var first := StripComment(Trim(ViewOf(s[0]).raw));
      var (v, n) := Gathered(first, s);
      if n < |s| {
        GatheredIsLocal(first, s, t);
        assert (s[..n] + t)[0] == s[0];
      }
    }
  }

  lemma NoValueIsSteady(json: Text -> Json, line: Text, a: seq<Text>, b: seq<Text>)
    requires FlowReader(json).read([line] + a).NoValue?
    ensures FlowReader(json).read([line] + b).NoValue?
  {
    hide ParseInlineEdges, Gathered, StripComment, Trim, ViewOf, FlowClosed;
    assert ([line] + a)[0] == ([line] + b)[0];
  }

  /** Whether a header carries a value shows on its own line, and a value that ends before the lines do reads the same
      whatever follows it. */
  lemma FlowReaderIsLocal(json: Text -> Json)
    ensures Local(FlowReader(json))
  {
    hide Settled;
    forall s, t
      ensures Settled(FlowReader(json), s, t)
    {
      ReadsIsLocal(json, s, t);
    }
    forall line: Text, a: seq<Text>, b: seq<Text> | FlowReader(json).read([line] + a).NoValue?
      ensures FlowReader(json).read([line] + b).NoValue?
    {
      NoValueIsSteady(json, line, a, b);
    }
  }

  // ---------- the pieces make up the text ----------

  function WithCommas(pieces: seq<Text>): Text {
    if pieces == [] then [] else if |pieces| == 1 then pieces[0] else pieces[0] + [COMMA] + WithCommas(pieces[1..])
  }

  lemma {:induction false} CutRejoins(t: Text, from: nat, spots: seq<Spot>)
    requires from <= |t| && Ascending(spots, from, |t|)
    ensures WithCommas(CutAt(t, from, spots)) == t[from..]
    decreases |spots|
  {
    if spots != [] {
      var s := spots[0];
      if t[s.at] == COMMA && s.depth == 0 {
        var rest := CutAt(t, s.at + 1, spots[1..]);
        CutRejoins(t, s.at + 1, spots[1..]);
        assert ([t[from..s.at]] + rest)[1..] == rest;
        assert t[from..] == t[from..s.at] + [t[s.at]] + t[s.at + 1..];
      } else {
        CutRejoins(t, from, spots[1..]);
      }
    }
  }

  /** Splitting at the top-level commas loses nothing. */
  lemma PiecesRejoin(t: Text)
    ensures WithCommas(SplitTopLevel(t)) == t
  {
    hide SpotsFrom, CutAt, WithCommas;
    SpotsInOrder(t, 0, OPENING);
    CutRejoins(t, 0, SpotsFrom(t, 0, OPENING));
  }

  // ---------- every edge read can be named by the writer ----------

  predicate AllText(pieces: seq<Text>) {
    forall k | 0 <= k < |pieces| :: IsText(pieces[k])
  }

  predicate TextMembers(members: Members) {
    forall k | 0 <= k < |members| && members[k].1.Flat? :: IsText(members[k].1.text)
  }

  predicate TextItems(items: seq<Item>) {
    forall k | 0 <= k < |items| && items[k].Map? :: TextMembers(items[k].members)
  }

  predicate TextJson(value: Json) {
    match value
    case Array(items) => TextItems(items)
    case Object(members) => forall k | 0 <= k < |members| && members[k].1.Some? :: TextItems(members[k].1.value)
    case _ => true
  }

  /** The strings of a JSON value are made of code units. */
  ghost predicate GivesText(json: Text -> Json) {
    forall t: Text :: TextJson(json(t))
  }

  lemma {:induction false} TrimStartText(t: Text)
    requires IsText(t)
    ensures IsText(TrimStart(t))
  {
    if t != [] && IsWhite(t[0]) {
      TrimStartText(t[1..]);
    }
  }

  lemma TrimText(t: Text)
    requires IsText(t)
    ensures IsText(Trim(t)) && IsText(TrimEnd(t))
  {
    TrimStartText(t);
    var s := TrimStart(t);
    assert TrimEnd(s) == s[..|TrimEnd(s)|] && TrimEnd(t) == t[..|TrimEnd(t)|];
  }

  /** One escape, or one character, is read at a time. */
  lemma UnescapeFirst(t: Text) returns (head: Text, n: nat)
    requires IsText(t) && t != []
    ensures IsText(head) && 1 <= n <= |t| && UnescapeDouble(t) == head + UnescapeDouble(t[n..])
  {
    hide IsHex, HexOf;
    if t[0] != BACKSLASH {
      head, n := [t[0]], 1;
    } else if |t| >= 6 && t[1] == SMALL_U && IsHex(t[2]) && IsHex(t[3]) && IsHex(t[4]) && IsHex(t[5]) {
      head, n := [HexOf(t[2]) * 4096 + HexOf(t[3]) * 256 + HexOf(t[4]) * 16 + HexOf(t[5])], 6;
    } else if |t| >= 4 && t[1] == SMALL_X && IsHex(t[2]) && IsHex(t[3]) {
      head, n := [HexOf(t[2]) * 16 + HexOf(t[3])], 4;
    } else if |t| >= 2 {
      head, n := if Escape(t[1]).Some? then [Escape(t[1]).value] else [BACKSLASH, t[1]], 2;
    } else {
      head, n := t, 1;
      assert t[1..] == [] && UnescapeDouble([]) == [] && t + [] == t;
    }
  }

  lemma {:induction false} UnescapeText(t: Text)
    requires IsText(t)
    ensures IsText(UnescapeDouble(t))
    decreases |t|
  {
    hide UnescapeDouble;
    if t == [] {
      NothingToUnescape();
    } else {
      var head, n := UnescapeFirst(t);
      UnescapeText(t[n..]);
    }
  }

  lemma {:induction false} FoldQuotesText(t: Text)
    requires IsText(t)
    ensures IsText(FoldQuotes(t))
    decreases |t|
  {
    if t == [] {
    } else if |t| >= 2 && t[0] == SQ && t[1] == SQ {
      FoldQuotesText(t[2..]);
    } else {
      FoldQuotesText(t[1..]);
    }
  }

  lemma ScalarText(t: Text)
    requires IsText(t)
    ensures IsText(ScalarValue(t))
  {
    hide Trim, UnescapeDouble, FoldQuotes;
    TrimText(t);
    var s := Trim(t);
    if |s| >= 2 {
      UnescapeText(s[1..|s| - 1]);
      FoldQuotesText(s[1..|s| - 1]);
    }
  }

  lemma {:induction false} CutText(t: Text, from: nat, spots: seq<Spot>)
    requires IsText(t) && from <= |t| && Ascending(spots, from, |t|)
    ensures AllText(CutAt(t, from, spots))
    decreases |spots|
  {
    if spots != [] {
      var s := spots[0];
      CutText(t, if t[s.at] == COMMA && s.depth == 0 then s.at + 1 else from, spots[1..]);
    }
  }

  lemma PiecesText(t: Text)
    requires IsText(t)
    ensures AllText(Pieces(t))
  {
    hide CutAt, SpotsFrom, Trim, IsText;
    SpotsInOrder(t, 0, OPENING);
    CutText(t, 0, SpotsFrom(t, 0, OPENING));
    var pieces := SplitTopLevel(t);
    forall k | 0 <= k < |pieces|
      ensures IsText(Trim(pieces[k]))
    {
      TrimText(pieces[k]);
    }
  }

  lemma PairText(t: Text)
    requires IsText(t) && Pair(t).Some?
    ensures IsText(Pair(t).value.1)
  {
    hide Run, TrimStart;
    var quoted := t != [] && IsQuote(t[0]);
    var k := Run(if quoted then t[1..] else t);
    var n := if quoted then |k| + 2 else |k|;
    TrimStartText(t[n..]);
    var rest := TrimStart(t[n..]);
    TrimStartText(rest[1..]);
  }

  lemma {:induction false} MembersText(pairs: seq<Text>)
    requires AllText(pairs) && MembersOf(pairs).Some?
    ensures TextMembers(MembersOf(pairs).value)
  {
    hide Pair, Trim, ScalarValue, IsText;
    if pairs != [] {
      assert IsText(pairs[0]);
      PairText(pairs[0]);
      var raw := Trim(Pair(pairs[0]).value.1);
      TrimText(Pair(pairs[0]).value.1);
      ScalarText(raw);
      MembersText(pairs[1..]);
    }
  }

  predicate GoodProps(props: Props) {
    DistinctKeys(props) && forall i | 0 <= i < |props| :: IsKey(props[i].0) && props[i].0 != TARGET && IsText(props[i].1)
  }

  lemma {:induction false} PutFrom(props: Props, k: Text, v: Text)
    ensures forall p | p in Put(props, k, v) :: p == (k, v) || p in props
  {
    if props != [] && props[0].0 != k {
      PutFrom(props[1..], k, v);
    }
  }

  lemma HeadIsApart(p: (Text, Text), rest: Props)
    requires DistinctKeys(rest) && forall q | q in rest :: q.0 != p.0
    ensures DistinctKeys([p] + rest)
  {
    var all := [p] + rest;
    forall i, j | 0 <= i < j < |all|
      ensures all[i].0 != all[j].0
    {
      assert all[j] == rest[j - 1] && rest[j - 1] in rest;
      if i > 0 {
        assert all[i] == rest[i - 1];
      }
    }
  }

  lemma TailDistinct(props: Props)
    requires props != [] && DistinctKeys(props)
    ensures DistinctKeys(props[1..]) && forall q | q in props[1..] :: q.0 != props[0].0
  {
  }

  lemma {:induction false} PutDistinct(props: Props, k: Text, v: Text)
    requires DistinctKeys(props)
    ensures DistinctKeys(Put(props, k, v))
  {
    hide DistinctKeys;
    if props == [] {
      OneIsDistinct((k, v));
    } else {
      TailDistinct(props);
      if props[0].0 == k {
        HeadIsApart((k, v), props[1..]);
      } else {
        PutDistinct(props[1..], k, v);
        PutFrom(props[1..], k, v);
        HeadIsApart(props[0], Put(props[1..], k, v));
      }
    }
  }

  lemma OneIsDistinct(p: (Text, Text))
    ensures DistinctKeys([p])
  {
  }

  lemma PutGood(props: Props, k: Text, v: Text)
    requires GoodProps(props) && IsKey(k) && k != TARGET && IsText(v)
    ensures GoodProps(Put(props, k, v))
  {
    hide IsKey, IsText, Put;
    PutDistinct(props, k, v);
    PutFrom(props, k, v);
    var put := Put(props, k, v);
    forall i | 0 <= i < |put|
      ensures IsKey(put[i].0) && put[i].0 != TARGET && IsText(put[i].1)
    {
      assert put[i] in put;
    }
  }

  lemma {:induction false} MembersGood(props: Props, members: Members)
    requires GoodProps(props) && TextMembers(members) && PutMembers(props, members).Some?
    ensures GoodProps(PutMembers(props, members).value)
    decreases |members|
  {
    hide IsKey, IsText, GoodProps, Put;
    if members != [] {
      var (k, v) := members[0];
      ToIsKey();
      assert TO != TARGET;
      PutGood(props, if k == TARGET then TO else k, v.text);
      MembersGood(Put(props, if k == TARGET then TO else k, v.text), members[1..]);
    }
  }

  lemma MapShaped(members: Members)
    requires TextMembers(members) && EdgeFromMap(members).Some?
    ensures Shaped(EdgeFromMap(members).value)
  {
    hide IsKey, IsText, PutMembers, TextMembers, Complete;
    MembersGood([], members);
  }

  predicate EachShaped(es: seq<Props>) {
    forall k | 0 <= k < |es| :: Shaped(es[k])
  }

  lemma {:induction false} ItemsShaped(items: seq<Item>)
    requires TextItems(items) && EdgesFromItems(items).Some?
    ensures EachShaped(EdgesFromItems(items).value)
  {
    hide EdgeFromMap, Shaped, TextMembers;
    if items != [] {
      MapShaped(items[0].members);
      ItemsShaped(items[1..]);
    }
  }

  lemma {:induction false} FlowShaped(items: seq<Text>)
    requires AllText(items) && EdgesFromFlow(items).Some?
    ensures EachShaped(EdgesFromFlow(items).value)
  {
    hide EdgeFromMap, Shaped, Pieces, MembersOf, IsText, TextMembers;
    if items != [] {
      InsideText(items[0]);
      PiecesText(Inside(items[0]));
      MembersText(Pieces(Inside(items[0])));
      MapShaped(MembersOf(Pieces(Inside(items[0]))).value);
      FlowShaped(items[1..]);
    }
  }

  lemma InsideText(t: Text)
    requires IsText(t)
    ensures IsText(Inside(t))
  {
  }

  lemma {:induction false} LookupIn<V>(m: seq<(Text, V)>, k: Text)
    requires Lookup<V>(m, k).Some?
    ensures exists i :: 0 <= i < |m| && m[i].0 == k && m[i].1 == Lookup<V>(m, k).value
  {
    if m[0].0 != k {
      LookupIn(m[1..], k);
      var i :| 0 <= i < |m[1..]| && m[1..][i].0 == k && m[1..][i].1 == Lookup<V>(m[1..], k).value;
      assert m[i + 1] == m[1..][i];
    }
  }

  lemma ObjectShaped(json: Text -> Json, text: Text)
    requires TextJson(json(text)) && EdgesFromObject(json, text).Some?
    ensures EachShaped(EdgesFromObject(json, text).value)
  {
    hide Shaped, EdgesFromItems, SplitTopLevel, Trim, TextItems, Lookup;
    var members := json(text).members;
    var outbound: Option<Option<seq<Item>>> := Lookup(members, OUTBOUND);
    if members != [] {
      LookupIn<Option<seq<Item>>>(members, OUTBOUND);
      ItemsShaped(outbound.value.value);
    }
  }

  lemma ValueShaped(json: Text -> Json, value: Text)
    requires GivesText(json) && IsText(value) && ParseInlineEdges(json, value).Some?
    ensures EachShaped(ParseInlineEdges(json, value).value)
  {
    hide Shaped, EdgesFromItems, EdgesFromObject, EdgesFromFlow, Pieces, Trim, IsText, TextItems;
    var text := Trim(value);
    TrimText(value);
    assert TextJson(json(text));
    InsideText(text);
    PiecesText(Inside(text));
    if ParseInlineEdges(json, value).value == [] {
    } else if Starts(text, LBRACE) {
      ObjectShaped(json, text);
    } else if json(text).Array? {
      ItemsShaped(json(text).items);
    } else {
      FlowShaped(Pieces(Inside(text)));
    }
  }

  lemma StripText(line: Text)
    requires IsText(line)
    ensures IsText(StripComment(line))
  {
    hide CommentAt, SpotsFrom, TrimEnd;
    SpotsInOrder(line, 0, OPENING);
    TrimText(line[..CommentAt(line, SpotsFrom(line, 0, OPENING))]);
  }

  lemma {:induction false} GatherText(value: Text, lines: seq<Text>, j: nat)
    requires j <= |lines| && IsText(value) && AllText(lines)
    ensures IsText(Gather(value, lines, j).0)
    decreases |lines| - j
  {
    hide FlowClosed, StripComment;
    if !FlowClosed(value) && j < |lines| {
      StripText(lines[j]);
      GatherText(value + [NL] + StripComment(lines[j]), lines, j + 1);
    }
  }

  lemma RawText(line: Text)
    requires IsText(line) && ViewOf(line).KeyLine?
    ensures IsText(ViewOf(line).raw)
  {
    hide InlineList, FlowEdge, Run, TrimStart, ListItem, FoldedText, BlockOpen, BlockCont, OneLine;
    TrimStartText(line[|Run(line)| + 1..]);
  }

  /** Every edge read from text has keys of the block grammar, each once, and a type and a target: the writer can name all
      of it. */
  lemma ReadsShaped(json: Text -> Json, lines: seq<Text>)
    requires GivesText(json) && AllText(lines) && ReadValue(json, lines).Reads?
    ensures EachShaped(ReadValue(json, lines).edges)
  {
    hide ViewOf, StripComment, Trim, ParseInlineEdges, FlowClosed, IsText, Gather, Shaped, GivesText;
    RawText(lines[0]);
    var raw := ViewOf(lines[0]).raw;
    TrimText(raw);
    StripText(Trim(raw));
    var first := StripComment(Trim(raw));
    GatherText(first, lines, 1);
    ValueShaped(json, Gathered(first, lines).0);
  }

  lemma {:induction false} LexShaped(json: Text -> Json, lines: seq<Text>, i: nat, x: Lex)
    requires i <= |lines| && GivesText(json) && AllText(lines) && AllShaped(x.edges)
    ensures AllShaped(LexFrom(FlowReader(json), lines, i, x).edges)
    decreases |lines| - i
  {
    hide Turn, Flush, AllShaped, GivesText, ReadValue;
    if i == |lines| {
      FlushedInline(x, i);
      StillShaped(x.edges, Flush(x, i).edges);
    } else {
      TurnShaped(json, lines, i, x);
      var (y, j) := Turn(FlowReader(json), lines, i, x);
      LexShaped(json, lines, j, y);
    }
  }

  lemma StillShaped(was: seq<Placed>, now: seq<Placed>)
    requires AllShaped(was) && |was| <= |now| && now[..|was|] == was
    requires forall k | |was| <= k < |now| :: !now[k].form.Inline?
    ensures AllShaped(now)
  {
    hide Shaped;
    assert forall k | 0 <= k < |was| :: now[k] == was[k];
  }

  lemma TurnShaped(json: Text -> Json, lines: seq<Text>, i: nat, x: Lex)
    requires i < |lines| && GivesText(json) && AllText(lines) && AllShaped(x.edges)
    ensures AllShaped(Turn(FlowReader(json), lines, i, x).0.edges)
  {
    hide Step, ViewOf, Trim, GivesText, ReadValue, Shaped, IsText;
    var z := Step(x, i, ViewOf(lines[i]));
    StepInline(x, i, ViewOf(lines[i]));
    StillShaped(x.edges, z.edges);
    var rest := lines[i..];
    if ReadValue(json, rest).Reads? {
      ReadsShaped(json, rest);
    }
  }

  /** Of the reader of inline values, nothing is left to ask: it is local, and every inline edge of a block of text is one
      the writer can name. */
  lemma FlowReaderServes(json: Text -> Json, lines: seq<Text>)
    requires GivesText(json) && AllText(lines)
    ensures Local(FlowReader(json)) && Steady(FlowReader(json)) && AllShaped(Lexed(FlowReader(json), lines).edges)
  {
    hide Local, Steady, GivesText, LexFrom, FlowReader;
    FlowReaderIsLocal(json);
    LocalIsSteady(FlowReader(json));
    LexShaped(json, lines, 0, EMPTY);
  }

  lemma LocalIsSteady(reader: Reader)
    requires Local(reader)
    ensures Steady(reader)
  {
  }
}
