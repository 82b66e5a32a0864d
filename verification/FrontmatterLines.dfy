/** What one line of a frontmatter block may be read as (`lib/kernel/frontmatter.js`): each of the
    grammar's patterns as a function of the line. */
module FrontmatterLines {
  import opened Common
  import opened ContentText
  import opened FrontmatterScalar

  const COLON: Unit := 0x3A
  const COMMA: Unit := 0x2C
  const DASH: Unit := 0x2D
  const HASH: Unit := 0x23
  const LBRACKET: Unit := 0x5B
  const RBRACKET: Unit := 0x5D
  const LBRACE: Unit := 0x7B
  const RBRACE: Unit := 0x7D

  const ID: Text := [0x69, 0x64]
  const PIN: Text := [0x70, 0x69, 0x6E]
  const EDGES: Text := [0x65, 0x64, 0x67, 0x65, 0x73]
  const TYPE: Text := [0x74, 0x79, 0x70, 0x65]
  const TO: Text := [0x74, 0x6F]
  const TARGET: Text := [0x74, 0x61, 0x72, 0x67, 0x65, 0x74]

  const LIST_FIELDS: seq<string> := [
    "pin", "exclude", "queue_mute", "commits", "slugs", "fingerprints", "roles", "tags", "applies_to_tags",
    "applies_to_repos", "applies_to_projects", "couples_when", "couples_also", "skills", "plugins", "mcp", "requires",
    "failing_tests", "covers_tests"]

  predicate SameText(t: Text, s: string) {
    |t| == |s| && forall k | 0 <= k < |s| :: t[k] == s[k] as int
  }

  predicate Among(t: Text, names: seq<string>) {
    exists i | 0 <= i < |names| :: SameText(t, names[i])
  }

  predicate IsListField(k: Text) {
    Among(k, LIST_FIELDS)
  }

  /** The properties of an object in insertion order. */
  type Props = seq<(Text, Text)>

  /** Assignment to a property: in place when present, at the end otherwise. */
  function Put<V>(m: seq<(Text, V)>, k: Text, v: V): seq<(Text, V)> {
    if m == [] then [(k, v)] else if m[0].0 == k then [(k, v)] + m[1..] else [m[0]] + Put(m[1..], k, v)
  }

  function Lookup<V>(m: seq<(Text, V)>, k: Text): Option<V> {
    if m == [] then None else if m[0].0 == k then Some(m[0].1) else Lookup(m[1..], k)
  }

  predicate IsWordUnit(u: Unit) {
    0x30 <= u <= 0x39 || 0x41 <= u <= 0x5A || 0x61 <= u <= 0x7A || u == 0x5F
  }

  /** `[\w-]`. */
  predicate IsKeyUnit(u: Unit) {
    IsWordUnit(u) || u == DASH
  }

  /** `^[\w-]+$`. */
  predicate IsToken(t: Text) {
    t != [] && forall k | 0 <= k < |t| :: IsKeyUnit(t[k])
  }

  /** `^\w[\w-]*$`. */
  predicate IsKey(t: Text) {
    IsToken(t) && IsWordUnit(t[0])
  }

  /** The longest run of `[\w-]` at the front. */
  function Run(s: Text): (r: Text)
    ensures r <= s && (forall k | 0 <= k < |r| :: IsKeyUnit(r[k]))
    ensures |r| < |s| ==> !IsKeyUnit(s[|r|])
  {
    if s != [] && IsKeyUnit(s[0]) then [s[0]] + Run(s[1..]) else []
  }

  // ---------- the patterns ----------

  /** `^(\w[\w-]*):\s*(.*)$`. */
  function KeyValue(s: Text): Option<(Text, Text)> {
    var k := Run(s);
    if k != [] && IsWordUnit(k[0]) && |k| < |s| && s[|k|] == COLON && OneLine(TrimStart(s[|k| + 1..])) then
      Some((k, TrimStart(s[|k| + 1..])))
    else None
  }

  function IndexOf(s: Text, u: Unit): (i: int)
    ensures i == -1 || (0 <= i < |s| && s[i] == u && forall k | 0 <= k < i :: s[k] != u)
    ensures i == -1 ==> u !in s
  {
    if s == [] then -1
    else if s[0] == u then 0
    else
      var i := IndexOf(s[1..], u);
      if i < 0 then -1 else i + 1
  }

  /** `split(",")`, each piece trimmed and the empty ones dropped. */
  function SplitItems(s: Text): seq<Text>
    decreases |s|
  {
    var i := IndexOf(s, COMMA);
    var first := Trim(if i < 0 then s else s[..i]);
    (if first == [] then [] else [first]) + if i < 0 then [] else SplitItems(s[i + 1..])
  }

  /** A list field with an inline list. */
  function InlineList(s: Text): Option<(Text, seq<Text>)> {
    var k := Run(s);
    if k != [] && |k| < |s| && s[|k|] == COLON && IsListField(k) then
      var rest := TrimStart(s[|k| + 1..]);
      if rest != [] && rest[0] == LBRACKET then
        var close := IndexOf(rest[1..], RBRACKET);
        if close >= 0 then Some((k, SplitItems(rest[1..][..close]))) else None
      else None
    else None
  }

  /** `prefix`, then white space, taken off the front. */
  function After(s: Text, prefix: Text): Option<Text> {
    if prefix <= s then Some(TrimStart(s[|prefix|..])) else None
  }

  /** A token followed by the rest. */
  function TokenThen(s: Text): Option<(Text, Text)> {
    var t := Run(s);
    if t == [] then None else Some((t, s[|t|..]))
  }

  /** `(\s*,\s*[\w-]+:\s*[\w-]+)*\}`. */
  function FlowAttrs(s: Text, props: Props): Option<Props>
    decreases |s|
  {
    if s != [] && s[0] == RBRACE then Some(props)
    else
      match After(TrimStart(s), [COMMA])
      case None => None
      case Some(s1) =>
        match TokenThen(s1)
        case None => None
        case Some((k, s2)) =>
          match After(s2, [COLON])
          case None => None
          case Some(s3) =>
            match TokenThen(s3)
            case None => None
            case Some((v, s4)) => FlowAttrs(s4, Put(props, k, v))
  }

  /** `-\s*\{type:\s*([\w-]+),\s*(?:to|target):\s*([\w-]+)...` at the front. */
  function FlowAt(s: Text): Option<Props> {
    match After(s, [DASH])
    case None => None
    case Some(s1) =>
      match After(s1, [LBRACE] + TYPE + [COLON])
      case None => None
      case Some(s2) =>
        match TokenThen(s2)
        case None => None
        case Some((kind, s3)) =>
          match After(s3, [COMMA])
          case None => None
          case Some(s4) =>
            var to := After(s4, TO + [COLON]);
            match (if to.Some? then to else After(s4, TARGET + [COLON]))
            case None => None
            case Some(s5) =>
              match TokenThen(s5)
              case None => None
              case Some((target, s6)) => FlowAttrs(s6, [(TYPE, kind), (TO, target)])
  }

  /** A flow-form edge anywhere on the line; the leftmost one. */
  function FlowEdge(s: Text): Option<Props> {
    if s == [] then None else if FlowAt(s).Some? then FlowAt(s) else FlowEdge(s[1..])
  }

  /** The text behind `^\s*-\s+`. */
  function Dashed(s: Text): Option<Text> {
    var t := TrimStart(s);
    if |t| >= 2 && t[0] == DASH && IsWhite(t[1]) then Some(TrimStart(t[1..])) else None
  }

  /** `^\s*-\s+(\w[\w-]*):\s*(.*)$`. */
  function BlockOpen(s: Text): Option<(Text, Text)> {
    match Dashed(s)
    case Some(t) => KeyValue(t)
    case None => None
  }

  predicate Indented(s: Text) {
    s != [] && IsWhite(s[0])
  }

  /** `^\s+(\w[\w-]*):\s*(.*)$`. */
  function BlockCont(s: Text): Option<(Text, Text)> {
    if Indented(s) then KeyValue(TrimStart(s)) else None
  }

  /** `^\s*-\s+(\S.*)$`. */
  function ListItem(s: Text): Option<Text> {
    match Dashed(s)
    case Some(t) => if t != [] && OneLine(t) then Some(t) else None
    case None => None
  }

  /** `^\s+(\S.*)$`. */
  function FoldedText(s: Text): Option<Text> {
    var t := TrimStart(s);
    if Indented(s) && t != [] && OneLine(t) then Some(t) else None
  }

  predicate IsBlankOrComment(s: Text) {
    Trim(s) == [] || Trim(s)[0] == HASH
  }

  /** The line as the lexer tries it: a list, a key, a flow edge, or whatever its mode makes of the rest. */
  datatype View =
    | ListLine(key: Text, items: seq<Text>)
    | KeyLine(key: Text, raw: Text)
    | FlowLine(props: Props)
    | Other(open: Option<(Text, Text)>, cont: Option<(Text, Text)>, item: Option<Text>, folded: Option<Text>, blank: bool)

  function ViewOf(s: Text): View {
    match InlineList(s)
    case Some((k, items)) => ListLine(k, items)
    case None =>
      match KeyValue(s)
      case Some((k, raw)) => KeyLine(k, raw)
      case None =>
        match FlowEdge(s)
        case Some(props) => FlowLine(props)
        case None => Other(BlockOpen(s), BlockCont(s), ListItem(s), FoldedText(s), IsBlankOrComment(s))
  }

  // ---------- the lines the writer emits ----------

  lemma {:induction false} RunOf(t: Text, rest: Text)
    requires forall k | 0 <= k < |t| :: IsKeyUnit(t[k])
    requires rest == [] || !IsKeyUnit(rest[0])
    ensures Run(t + rest) == t
  {
    if t == [] {
      assert t + rest == rest;
    } else {
      RunOf(t[1..], rest);
      assert (t + rest)[1..] == t[1..] + rest;
      assert t == [t[0]] + t[1..];
    }
  }

  lemma TokenReads(t: Text, rest: Text)
    requires IsToken(t) && (rest == [] || !IsKeyUnit(rest[0]))
    ensures TokenThen(t + rest) == Some((t, rest))
  {
    RunOf(t, rest);
    assert (t + rest)[|t|..] == rest;
  }

  lemma SpaceSkipped(t: Text)
    ensures TrimStart([SPACE] + t) == TrimStart(t)
  {
    assert ([SPACE] + t)[1..] == t;
  }

  /** Trimmed text behind one space. */
  lemma SpaceOff(t: Text)
    requires t == [] || !IsWhite(t[0])
    ensures TrimStart([SPACE] + t) == t
  {
    assert ([SPACE] + t)[1..] == t;
  }

  lemma AfterReads(prefix: Text, rest: Text)
    requires rest == [] || !IsWhite(rest[0])
    ensures After(prefix + rest, prefix) == Some(rest)
    ensures After(prefix + [SPACE] + rest, prefix) == Some(rest)
  {
    assert (prefix + rest)[|prefix|..] == rest;
    assert (prefix + [SPACE] + rest)[|prefix|..] == [SPACE] + rest;
    SpaceOff(rest);
  }

  function KeyText(key: Text, text: Text): Text {
    key + [COLON, SPACE] + text
  }

  /** `key: text` reads as its key and its text. */
  lemma KeyTextReads(key: Text, text: Text)
    requires IsKey(key) && OneLine(text) && (text == [] || !IsWhite(text[0]))
    ensures KeyValue(KeyText(key, text)) == Some((key, text))
    ensures Run(KeyText(key, text)) == key
  {
    var rest := [COLON, SPACE] + text;
    var s := KeyText(key, text);
    assert s == key + rest;
    RunOf(key, rest);
    assert s[|key| + 1..] == [SPACE] + text;
    SpaceOff(text);
  }

  /** `key:` alone. */
  lemma BareKeyReads(key: Text)
    requires IsKey(key)
    ensures KeyValue(key + [COLON]) == Some((key, []))
    ensures InlineList(key + [COLON]) == None
  {
    RunOf(key, [COLON]);
    assert (key + [COLON])[|key| + 1..] == [];
  }

  /** A line that starts with white space is no list and no key. */
  lemma IndentedIsNoKey(s: Text)
    requires Indented(s)
    ensures KeyValue(s) == None && InlineList(s) == None
  {
    hide IsListField;
    assert Run(s) == [];
  }

  const INDENT: Text := [SPACE, SPACE]

  function DashedText(text: Text): Text {
    INDENT + [DASH, SPACE] + text
  }

  lemma DashedReads(text: Text)
    requires text == [] || !IsWhite(text[0])
    ensures Dashed(DashedText(text)) == Some(text)
    ensures Indented(DashedText(text))
  {
    var s := DashedText(text);
    var t := [DASH, SPACE] + text;
    assert s[1..] == [SPACE] + t && s[1..][1..] == t;
    assert TrimStart(s) == t;
    assert t[1..] == [SPACE] + text;
    SpaceOff(text);
  }

  /** `  - item` in a block list. */
  lemma ItemReads(text: Text)
    requires text != [] && !IsWhite(text[0]) && OneLine(text)
    requires FlowEdge(DashedText(text)) == None
    ensures var v := ViewOf(DashedText(text)); v.Other? && v.item == Some(text)
  {
    hide FlowEdge, InlineList, KeyValue, Indented;
    DashedReads(text);
    IndentedIsNoKey(DashedText(text));
  }

  /** `  - key: text` opening a block edge. */
  lemma OpenReads(key: Text, text: Text)
    requires IsKey(key) && OneLine(text) && (text == [] || !IsWhite(text[0]))
    requires FlowEdge(DashedText(KeyText(key, text))) == None
    ensures var v := ViewOf(DashedText(KeyText(key, text))); v.Other? && v.open == Some((key, text))
  {
    hide FlowEdge, InlineList, KeyValue, Indented;
    KeyTextReads(key, text);
    KeyIsBlack(key);
    DashedReads(KeyText(key, text));
    IndentedIsNoKey(DashedText(KeyText(key, text)));
  }

  lemma KeyIsBlack(key: Text)
    requires IsKey(key)
    ensures !IsWhite(key[0]) && key[0] != DASH
  {
  }

  function ContText(key: Text, text: Text): Text {
    INDENT + INDENT + KeyText(key, text)
  }

  lemma IndentedText(t: Text)
    requires t != [] && !IsWhite(t[0])
    ensures TrimStart([SPACE] + ([SPACE] + ([SPACE] + ([SPACE] + t)))) == t
  {
    SpaceSkipped([SPACE] + ([SPACE] + ([SPACE] + t)));
    SpaceSkipped([SPACE] + ([SPACE] + t));
    SpaceSkipped([SPACE] + t);
    SpaceOff(t);
  }

  /** `    key: text` continuing one. */
  lemma ContReads(key: Text, text: Text)
    requires IsKey(key) && OneLine(text) && (text == [] || !IsWhite(text[0]))
    requires FlowEdge(ContText(key, text)) == None
    ensures var v := ViewOf(ContText(key, text)); v.Other? && v.open == None && v.cont == Some((key, text))
  {
    hide FlowEdge, InlineList, KeyValue, TrimStart;
    var s, t := ContText(key, text), KeyText(key, text);
    KeyTextReads(key, text);
    KeyIsBlack(key);
    assert t[0] == key[0];
    IndentedText(t);
    assert s == [SPACE] + ([SPACE] + ([SPACE] + ([SPACE] + t)));
    IndentedIsNoKey(s);
  }

  // ---------- a flow edge line ----------

  function AttrTail(attrs: Props): Text
    decreases |attrs|
  {
    if attrs == [] then [RBRACE]
    else [COMMA, SPACE] + KeyText(attrs[0].0, attrs[0].1) + AttrTail(attrs[1..])
  }

  /** `  - {type: T, to: U, k: v, ...}`. */
  function FlowText(kind: Text, to: Text, attrs: Props): Text {
    DashedText([LBRACE] + TYPE + [COLON, SPACE] + kind + [COMMA, SPACE] + TO + [COLON, SPACE] + to + AttrTail(attrs))
  }

  predicate FlowAttrsFit(attrs: Props) {
    forall i | 0 <= i < |attrs| :: IsToken(attrs[i].0) && IsToken(attrs[i].1)
  }

  function PutAll(props: Props, attrs: Props): Props
    decreases |attrs|
  {
    if attrs == [] then props else PutAll(Put(props, attrs[0].0, attrs[0].1), attrs[1..])
  }

  lemma TokenIsBlack(t: Text)
    requires IsToken(t)
    ensures t != [] && !IsWhite(t[0])
  {
  }

  lemma TailStarts(attrs: Props)
    ensures AttrTail(attrs) != [] && !IsKeyUnit(AttrTail(attrs)[0]) && !IsWhite(AttrTail(attrs)[0])
  {
  }

  lemma {:induction false} TailReads(attrs: Props, props: Props)
    requires FlowAttrsFit(attrs)
    ensures FlowAttrs(AttrTail(attrs), props) == Some(PutAll(props, attrs))
    decreases |attrs|
  {
    hide After, TokenThen, IsToken;
    if attrs != [] {
      var k, v, rest := attrs[0].0, attrs[0].1, AttrTail(attrs[1..]);
      assert IsToken(k) && IsToken(v);
      TokenIsBlack(k);
      TokenIsBlack(v);
      TailStarts(attrs[1..]);
      var s := AttrTail(attrs);
      var s1 := k + ([COLON, SPACE] + v + rest);
      assert s == [COMMA] + [SPACE] + s1;
      assert s1[0] == k[0];
      AfterReads([COMMA], s1);
      var s2 := [COLON] + [SPACE] + (v + rest);
      assert s1 == k + s2;
      TokenReads(k, s2);
      assert (v + rest)[0] == v[0];
      AfterReads([COLON], v + rest);
      TokenReads(v, rest);
      TailReads(attrs[1..], Put(props, k, v));
    }
  }

  lemma {:induction false} FlowAtReads(kind: Text, to: Text, attrs: Props)
    requires IsToken(kind) && IsToken(to) && FlowAttrsFit(attrs)
    ensures FlowAt([DASH, SPACE] + ([LBRACE] + TYPE + [COLON, SPACE] + kind + [COMMA, SPACE] + TO + [COLON, SPACE] + to + AttrTail(attrs)))
         == Some(PutAll([(TYPE, kind), (TO, to)], attrs))
  {
    hide After, TokenThen, IsToken, FlowAttrs, AttrTail;
    var tail := AttrTail(attrs);
    TokenIsBlack(kind);
    TokenIsBlack(to);
    TailStarts(attrs);
    TailReads(attrs, [(TYPE, kind), (TO, to)]);
    var s5 := to + tail;
    assert s5[0] == to[0];
    TokenReads(to, tail);
    var s4 := TO + [COLON] + [SPACE] + s5;
    AfterReads(TO + [COLON], s5);
    var s3 := [COMMA] + [SPACE] + s4;
    AfterReads([COMMA], s4);
    var s2 := kind + s3;
    assert s2[0] == kind[0];
    TokenReads(kind, s3);
    var open := [LBRACE] + TYPE + [COLON];
    var s1 := open + [SPACE] + s2;
    AfterReads(open, s2);
    AfterReads([DASH], s1);
    assert [DASH, SPACE] + ([LBRACE] + TYPE + [COLON, SPACE] + kind + [COMMA, SPACE] + TO + [COLON, SPACE] + to + tail)
        == [DASH] + [SPACE] + s1;
  }

  lemma NoFlowAtSpace(s: Text)
    requires s != [] && s[0] == SPACE
    ensures FlowEdge(s) == FlowEdge(s[1..])
  {
  }

  lemma FlowAtFront(s: Text)
    requires s != [] && FlowAt(s).Some?
    ensures FlowEdge(s) == FlowAt(s)
  {
    hide FlowAt;
  }

  /** The flow line reads as its edge. */
  lemma FlowReads(kind: Text, to: Text, attrs: Props)
    requires IsToken(kind) && IsToken(to) && FlowAttrsFit(attrs)
    ensures ViewOf(FlowText(kind, to, attrs)) == FlowLine(PutAll([(TYPE, kind), (TO, to)], attrs))
  {
    hide FlowAt, FlowEdge, InlineList, KeyValue, IsToken, AttrTail;
    var text := [LBRACE] + TYPE + [COLON, SPACE] + kind + [COMMA, SPACE] + TO + [COLON, SPACE] + to + AttrTail(attrs);
    var s := FlowText(kind, to, attrs);
    FlowAtReads(kind, to, attrs);
    IndentedIsNoKey(s);
    NoFlowAtSpace(s);
    NoFlowAtSpace(s[1..]);
    assert s[1..][1..] == [DASH, SPACE] + text;
    FlowAtFront([DASH, SPACE] + text);
  }

  // ---------- an inline list line ----------

  /** `[,\[\]]` appears nowhere, no quote at either end, trimmed and not empty. */
  predicate InlineSafe(s: Text) {
    && COMMA !in s && LBRACKET !in s && RBRACKET !in s
    && s != [] && !IsQuote(s[0]) && !IsQuote(s[|s| - 1]) && Trim(s) == s
  }

  function JoinItems(items: seq<Text>): Text {
    if items == [] then [] else if |items| == 1 then items[0] else items[0] + [COMMA, SPACE] + JoinItems(items[1..])
  }

  function InlineText(key: Text, items: seq<Text>): Text {
    KeyText(key, [LBRACKET] + JoinItems(items) + [RBRACKET])
  }

  lemma IndexOfAfter(a: Text, u: Unit, rest: Text)
    requires u !in a
    ensures IndexOf(a + [u] + rest, u) == |a|
  {
    var s := a + [u] + rest;
    assert s[|a|] == u;
    assert forall k | 0 <= k < |a| :: s[k] == a[k] && a[k] in a;
  }

  lemma TrimLeadingSpace(s: Text)
    requires s != [] && Trim(s) == s
    ensures Trim([SPACE] + s) == s
  {
    TrimFixes(s);
    SpaceOff(s);
  }

  lemma {:induction false} SplitStep(a: Text, rest: Text)
    requires COMMA !in a
    ensures SplitItems(a + [COMMA] + rest) == (if Trim(a) == [] then [] else [Trim(a)]) + SplitItems(rest)
  {
    hide Trim;
    var s := a + [COMMA] + rest;
    IndexOfAfter(a, COMMA, rest);
    assert s[..|a|] == a && s[|a| + 1..] == rest;
  }

  lemma SplitLast(a: Text)
    requires COMMA !in a
    ensures SplitItems(a) == if Trim(a) == [] then [] else [Trim(a)]
  {
    hide Trim;
    NoComma(a);
  }

  lemma {:induction false} ItemsSplit(items: seq<Text>, pre: Text)
    requires pre == [] || pre == [SPACE]
    requires forall k | 0 <= k < |items| :: InlineSafe(items[k])
    ensures SplitItems(pre + JoinItems(items)) == items
    decreases |items|
  {
    hide Trim, SplitItems, InlineSafe;
    if items == [] {
      NothingToSplit();
      assert pre + [] == pre;
    } else {
      var it := items[0];
      PaddedItem(it, pre);
      if |items| > 1 {
        ItemsSplit(items[1..], [SPACE]);
        var rest := [SPACE] + JoinItems(items[1..]);
        assert pre + JoinItems(items) == (pre + it) + [COMMA] + rest;
        SplitStep(pre + it, rest);
      } else {
        SplitLast(pre + it);
      }
    }
  }

  lemma PaddedItem(it: Text, pre: Text)
    requires InlineSafe(it) && (pre == [] || pre == [SPACE])
    ensures Trim(pre + it) == it && it != [] && COMMA !in pre + it
  {
    hide Trim;
    TrimLeadingSpace(it);
    assert [] + it == it;
  }

  lemma NoComma(s: Text)
    requires COMMA !in s
    ensures IndexOf(s, COMMA) == -1
  {
  }

  lemma NothingToSplit()
    ensures SplitItems([]) == [] && SplitItems([SPACE]) == []
  {
    assert IndexOf([SPACE][1..], COMMA) == -1;
    assert TrimStart([SPACE][1..]) == [];
  }

  lemma {:induction false} NoBracketInJoin(items: seq<Text>)
    requires forall k | 0 <= k < |items| :: InlineSafe(items[k])
    ensures RBRACKET !in JoinItems(items)
    decreases |items|
  {
    if items != [] {
      assert InlineSafe(items[0]);
      NoBracketInJoin(items[1..]);
    }
  }

  /** The text between the brackets is split into the items. */
  lemma {:induction false} BracketsRead(items: seq<Text>)
    requires forall k | 0 <= k < |items| :: InlineSafe(items[k])
    ensures var inner := JoinItems(items);
            var text := [LBRACKET] + inner + [RBRACKET];
            IndexOf(text[1..], RBRACKET) == |inner| && SplitItems(text[1..][..|inner|]) == items
  {
    hide InlineSafe, SplitItems, JoinItems;
    var inner := JoinItems(items);
    var text := [LBRACKET] + inner + [RBRACKET];
    NoBracketInJoin(items);
    ItemsSplit(items, []);
    assert [] + inner == inner;
    assert text[1..] == inner + [RBRACKET] + [];
    IndexOfAfter(inner, RBRACKET, []);
    assert text[1..][..|inner|] == inner;
  }

  /** `key: [a, b]` reads as its items. */
  lemma {:induction false} InlineReads(key: Text, items: seq<Text>)
    requires IsKey(key) && IsListField(key)
    requires forall k | 0 <= k < |items| :: InlineSafe(items[k])
    ensures ViewOf(InlineText(key, items)) == ListLine(key, items)
  {
    hide IsListField, InlineSafe, SplitItems, JoinItems, IndexOf, KeyValue, FlowEdge;
    var text := [LBRACKET] + JoinItems(items) + [RBRACKET];
    var s := InlineText(key, items);
    var tail := [COLON, SPACE] + text;
    assert s == key + tail;
    RunOf(key, tail);
    assert s[|key| + 1..] == [SPACE] + text;
    SpaceOff(text);
    BracketsRead(items);
  }
}
