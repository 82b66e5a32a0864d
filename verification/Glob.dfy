/** Compiling a glob to a regular expression (`lib/kernel/coupling.js`). Text is held as UTF-16
    code units, the units JavaScript's regular expressions work on. */
module Glob {
  import opened Common

  type Unit = u: int | 0 <= u < 0x10000

  type Text = seq<Unit>

  const SLASH: Unit := 0x2F
  const STAR: Unit := 0x2A
  const QUESTION: Unit := 0x3F
  const DOT: Unit := 0x2E
  const PLUS: Unit := 0x2B
  const CARET: Unit := 0x5E
  const DOLLAR: Unit := 0x24
  const BACKSLASH: Unit := 0x5C
  const OPEN: Unit := 0x28
  const CLOSE: Unit := 0x29
  const COLON: Unit := 0x3A
  const LBRACKET: Unit := 0x5B
  const RBRACKET: Unit := 0x5D

  /** `.`, `+`, `^`, `$`, `{`, `}`, `(`, `)`, `|`, `[`, `]`, `\`. */
  predicate IsEscaped(c: Unit) {
    c == DOT || c == PLUS || c == CARET || c == DOLLAR || c == 0x7B || c == 0x7D || c == OPEN || c == CLOSE
    || c == 0x7C || c == LBRACKET || c == RBRACKET || c == BACKSLASH
  }

  /** Units with a meaning of their own in a pattern. */
  predicate IsSyntax(c: Unit) {
    IsEscaped(c) || c == STAR || c == QUESTION
  }

  predicate IsLineEnd(c: Unit) {
    c == 0x0A || c == 0x0D || c == 0x2028 || c == 0x2029
  }

  // ---------- the regular expressions the compiler writes ----------

  datatype Simple = Chr(u: Unit) | Dot | NotChr(u: Unit)
  {
    predicate Takes(c: Unit) {
      match this
      case Chr(u) => c == u
      case Dot => !IsLineEnd(c)
      case NotChr(u) => c != u
    }
  }

  datatype Quantifier = Once | Many | Some1

  /** One simple atom and how often it repeats. */
  datatype Piece = Piece(atom: Simple, times: Quantifier)

  /** A piece, or a repeated group of pieces. */
  datatype Item = One(piece: Piece) | Loop(pieces: seq<Piece>)

  predicate MatchPiece(p: Piece, s: Text) {
    && (p.times == Once ==> |s| == 1)
    && (p.times == Some1 ==> |s| >= 1)
    && forall k | 0 <= k < |s| :: p.atom.Takes(s[k])
  }

  predicate MatchPieces(ps: seq<Piece>, s: Text)
    decreases |ps|
  {
    if ps == [] then s == []
    else exists k | 0 <= k <= |s| :: MatchPiece(ps[0], s[..k]) && MatchPieces(ps[1..], s[k..])
  }

  predicate MatchLoop(ps: seq<Piece>, s: Text)
    decreases |s|
  {
    s == [] || exists k | 0 < k <= |s| :: MatchPieces(ps, s[..k]) && MatchLoop(ps, s[k..])
  }

  predicate MatchItem(item: Item, s: Text) {
    match item
    case One(p) => MatchPiece(p, s)
    case Loop(ps) => MatchLoop(ps, s)
  }

  /** The whole of `s` is matched, as under `^` and `$`. */
  predicate MatchItems(items: seq<Item>, s: Text)
    decreases |items|
  {
    if items == [] then s == []
    else exists k | 0 <= k <= |s| :: MatchItem(items[0], s[..k]) && MatchItems(items[1..], s[k..])
  }

  // ---------- reading a pattern (ECMA-262, section 22.2.1, the part in use) ----------

  datatype Parsed<+T> = Parsed(value: T, rest: Text)

  function ParseSimple(s: Text): (r: Option<Parsed<Simple>>)
    ensures r.Some? ==> |r.value.rest| < |s|
  {
    if s == [] then None
    else if s[0] == BACKSLASH then
      if |s| >= 2 && IsSyntax(s[1]) then Some(Parsed(Chr(s[1]), s[2..])) else None
    else if s[0] == DOT then Some(Parsed(Dot, s[1..]))
    else if s[0] == LBRACKET then
      if |s| >= 4 && s[1] == CARET && !IsSyntax(s[2]) && s[2] != 0x2D && s[3] == RBRACKET then
        Some(Parsed(NotChr(s[2]), s[4..]))
      else None
    else if IsSyntax(s[0]) then None
    else Some(Parsed(Chr(s[0]), s[1..]))
  }

  function ParsePiece(s: Text): (r: Option<Parsed<Piece>>)
    ensures r.Some? ==> |r.value.rest| < |s|
  {
    match ParseSimple(s)
    case None => None
    case Some(Parsed(a, rest)) =>
      if rest != [] && rest[0] == STAR then Some(Parsed(Piece(a, Many), rest[1..]))
      else if rest != [] && rest[0] == PLUS then Some(Parsed(Piece(a, Some1), rest[1..]))
      else Some(Parsed(Piece(a, Once), rest))
  }

  /** Pieces up to the closing parenthesis of their group. */
  function ParsePieces(s: Text): (r: Option<Parsed<seq<Piece>>>)
    ensures r.Some? ==> |r.value.rest| <= |s|
    decreases |s|
  {
    if s != [] && s[0] == CLOSE then Some(Parsed([], s))
    else
      match ParsePiece(s)
      case None => None
      case Some(Parsed(p, rest)) =>
        match ParsePieces(rest)
        case None => None
        case Some(Parsed(ps, after)) => Some(Parsed([p] + ps, after))
  }

  function ParseItems(s: Text): Option<seq<Item>>
    decreases |s|
  {
    if s == [] then Some([])
    else if |s| >= 3 && s[..3] == [OPEN, QUESTION, COLON] then
      match ParsePieces(s[3..])
      case None => None
      case Some(Parsed(ps, rest)) =>
        if |rest| >= 2 && rest[..2] == [CLOSE, STAR] then
          match ParseItems(rest[2..])
          case None => None
          case Some(items) => Some([Loop(ps)] + items)
        else None
    else
      match ParsePiece(s)
      case None => None
      case Some(Parsed(p, rest)) =>
        match ParseItems(rest)
        case None => None
        case Some(items) => Some([One(p)] + items)
  }

  /** The items between the two anchors. */
  function ParsePattern(s: Text): Option<seq<Item>> {
    if |s| >= 2 && s[0] == CARET && s[|s| - 1] == DOLLAR then ParseItems(s[1..|s| - 1]) else None
  }

  // ---------- the dialect ----------

  /** `c`, `?`, `*`, a double star, and a double star with its slash. */
  datatype Token = Lit(u: Unit) | AnyOne | AnyInSegment | Anything | AnySegments

  /** A trailing slash means the whole subtree. */
  function WithSubtree(glob: Text): Text {
    if glob != [] && glob[|glob| - 1] == SLASH then glob + [STAR, STAR] else glob
  }

  function TokenAt(g: Text, i: nat): (t: Token)
    requires i < |g|
    ensures t.Lit? ==> t.u != STAR && t.u != QUESTION
    ensures i + Width(t) <= |g|
  {
    if g[i] == STAR then
      if i + 1 < |g| && g[i + 1] == STAR then
        if i + 2 < |g| && g[i + 2] == SLASH then AnySegments else Anything
      else AnyInSegment
    else if g[i] == QUESTION then AnyOne
    else Lit(g[i])
  }

  function Width(t: Token): nat {
    match t
    case AnySegments => 3
    case Anything => 2
    case _ => 1
  }

  function TokensFrom(g: Text, i: nat): (ts: seq<Token>)
    requires i <= |g|
    ensures forall t | t in ts && t.Lit? :: t.u != STAR && t.u != QUESTION
    decreases |g| - i
  {
    if i == |g| then [] else [TokenAt(g, i)] + TokensFrom(g, i + Width(TokenAt(g, i)))
  }

  function Tokens(g: Text): seq<Token> {
    TokensFrom(g, 0)
  }

  function TokenText(t: Token): Text {
    match t
    case Lit(c) => if IsEscaped(c) then [BACKSLASH, c] else [c]
    case AnyOne => [LBRACKET, CARET, SLASH, RBRACKET]
    case AnyInSegment => [LBRACKET, CARET, SLASH, RBRACKET, STAR]
    case Anything => [DOT, STAR]
    case AnySegments => [OPEN, QUESTION, COLON, LBRACKET, CARET, SLASH, RBRACKET, PLUS, SLASH, CLOSE, STAR]
  }

  function Render(ts: seq<Token>): Text {
    if ts == [] then [] else TokenText(ts[0]) + Render(ts[1..])
  }

  function PatternText(glob: Text): Text {
    [CARET] + Render(Tokens(WithSubtree(glob))) + [DOLLAR]
  }

  /** What is left to write once `i` is reached. */
  function Remaining(g: Text, i: nat): Text
    requires i <= |g|
  {
    Render(TokensFrom(g, i))
  }

  lemma RenderStep(g: Text, i: nat, re: Text)
    requires i < |g|
    ensures var t := TokenAt(g, i);
            re + Remaining(g, i) == (re + TokenText(t)) + Remaining(g, i + Width(t))
  {
    hide TokenText, TokenAt;
    var t := TokenAt(g, i);
    assert ([t] + TokensFrom(g, i + Width(t)))[1..] == TokensFrom(g, i + Width(t));
  }

  /** The index loop that writes the pattern. */
  method GlobToRegExp(glob: Text) returns (pattern: Text)
    ensures pattern == PatternText(glob)
  {
    hide Render, TokensFrom, Remaining, IsEscaped, Tokens;
    var g := glob;
    if glob != [] && glob[|glob| - 1] == SLASH {
      g := g + [STAR, STAR];
    }
    var re: Text := [];
    var i := 0;
    ghost var whole := Remaining(g, 0);
    while i < |g|
      invariant i <= |g|
      invariant re + Remaining(g, i) == whole
    {
      var c := g[i];
      RenderStep(g, i, re);
      ghost var t, before, next := TokenAt(g, i), re, i + Width(TokenAt(g, i));
      if c == STAR {
        if i + 1 < |g| && g[i + 1] == STAR {
          if i + 2 < |g| && g[i + 2] == SLASH {
            re := re + [OPEN, QUESTION, COLON, LBRACKET, CARET, SLASH, RBRACKET, PLUS, SLASH, CLOSE, STAR];
            i := i + 2;
          } else {
            re := re + [DOT, STAR];
            i := i + 1;
          }
        } else {
          re := re + [LBRACKET, CARET, SLASH, RBRACKET, STAR];
        }
      } else if c == QUESTION {
        re := re + [LBRACKET, CARET, SLASH, RBRACKET];
      } else if IsEscaped(c) {
        re := re + [BACKSLASH, c];
      } else {
        re := re + [c];
      }
      i := i + 1;
      assert re == before + TokenText(t) && i == next;
    }
    NothingToRender(g);
    assert re == whole;
    pattern := [CARET] + re + [DOLLAR];
  }

  lemma NothingToRender(g: Text)
    ensures Remaining(g, |g|) == []
    ensures Remaining(g, 0) == Render(Tokens(g))
  {
  }

  // ---------- what was written reads back ----------

  const NOT_SLASH := NotChr(SLASH)

  function ItemOf(t: Token): Item {
    match t
    case Lit(c) => One(Piece(Chr(c), Once))
    case AnyOne => One(Piece(NOT_SLASH, Once))
    case AnyInSegment => One(Piece(NOT_SLASH, Many))
    case Anything => One(Piece(Dot, Many))
    case AnySegments => Loop([Piece(NOT_SLASH, Some1), Piece(Chr(SLASH), Once)])
  }

  function ItemsOf(ts: seq<Token>): seq<Item> {
    if ts == [] then [] else [ItemOf(ts[0])] + ItemsOf(ts[1..])
  }

  /** No token's text starts with a quantifier. */
  predicate NoQuantifier(s: Text) {
    s == [] || (s[0] != STAR && s[0] != PLUS)
  }

  lemma RenderHasNoQuantifier(ts: seq<Token>)
    requires forall t | t in ts && t.Lit? :: t.u != STAR && t.u != QUESTION
    ensures NoQuantifier(Render(ts))
  {
    if ts != [] {
      assert ts[0] in ts;
      assert Render(ts)[0] == TokenText(ts[0])[0];
    }
  }

  lemma SimpleTokenParses(t: Token, rest: Text)
    requires !t.AnySegments? && NoQuantifier(rest)
    requires t.Lit? ==> t.u != STAR && t.u != QUESTION
    ensures ParsePiece(TokenText(t) + rest) == Some(Parsed(ItemOf(t).piece, rest))
    ensures TokenText(t)[0] != OPEN
  {
    var s := TokenText(t) + rest;
    match t
    case Lit(c) =>
      if IsEscaped(c) {
        assert s[2..] == rest;
      } else {
        assert s[1..] == rest;
      }
    case AnyOne =>
      assert s[4..] == rest;
    case AnyInSegment =>
      assert s[4..] == [STAR] + rest && s[4..][1..] == rest;
    case Anything =>
      assert s[1..] == [STAR] + rest && s[1..][1..] == rest;
  }

  lemma PieceThenPieces(s: Text, p: Piece, rest: Text, ps: seq<Piece>, after: Text)
    requires s != [] && s[0] != CLOSE
    requires ParsePiece(s) == Some(Parsed(p, rest)) && ParsePieces(rest) == Some(Parsed(ps, after))
    ensures ParsePieces(s) == Some(Parsed([p] + ps, after))
  {
    hide ParsePiece;
  }

  lemma GroupParses(rest: Text)
    ensures ParsePieces([LBRACKET, CARET, SLASH, RBRACKET, PLUS, SLASH, CLOSE, STAR] + rest)
         == Some(Parsed(ItemOf(AnySegments).pieces, [CLOSE, STAR] + rest))
  {
    hide ParsePieces, ItemOf;
    var s := [LBRACKET, CARET, SLASH, RBRACKET, PLUS, SLASH, CLOSE, STAR] + rest;
    var t := [SLASH, CLOSE, STAR] + rest;
    var u := [CLOSE, STAR] + rest;
    var segment, slash := Piece(NOT_SLASH, Some1), Piece(Chr(SLASH), Once);
    assert s[4..] == [PLUS] + t && ([PLUS] + t)[1..] == t;
    assert ParseSimple(s) == Some(Parsed(NOT_SLASH, [PLUS] + t));
    assert t[1..] == u;
    assert ParsePiece(t) == Some(Parsed(slash, u));
    GroupCloses(u);
    PieceThenPieces(t, slash, u, [], u);
    PieceThenPieces(s, segment, t, [slash] + [], u);
    GroupPieces();
    assert [segment] + ([slash] + []) == [segment, slash];
  }

  lemma GroupPieces()
    ensures ItemOf(AnySegments) == Loop([Piece(NOT_SLASH, Some1), Piece(Chr(SLASH), Once)])
  {
  }

  lemma GroupCloses(u: Text)
    requires u != [] && u[0] == CLOSE
    ensures ParsePieces(u) == Some(Parsed([], u))
  {
  }

  lemma GroupItemParses(rest: Text, items: seq<Item>)
    requires ParseItems(rest) == Some(items)
    ensures ParseItems(TokenText(AnySegments) + rest) == Some([ItemOf(AnySegments)] + items)
  {
    hide ParsePiece, ParsePieces, ItemOf;
    var s := TokenText(AnySegments) + rest;
    var group := [LBRACKET, CARET, SLASH, RBRACKET, PLUS, SLASH, CLOSE, STAR] + rest;
    assert s[..3] == [OPEN, QUESTION, COLON] && s[3..] == group;
    GroupParses(rest);
    GroupPieces();
    var after := [CLOSE, STAR] + rest;
    assert after[..2] == [CLOSE, STAR] && after[2..] == rest;
  }

  lemma SimpleItemParses(t: Token, rest: Text, items: seq<Item>)
    requires !t.AnySegments? && NoQuantifier(rest)
    requires t.Lit? ==> t.u != STAR && t.u != QUESTION
    requires ParseItems(rest) == Some(items)
    ensures ParseItems(TokenText(t) + rest) == Some([ItemOf(t)] + items)
  {
    hide ParsePiece, ParsePieces;
    var s := TokenText(t) + rest;
    SimpleTokenParses(t, rest);
    assert s[0] == TokenText(t)[0];
    assert |s| >= 3 ==> s[..3][0] == s[0];
  }

  /** Every literal comes back as itself and every wildcard as its own item: the escaping is right. */
  lemma {:induction false} RenderParses(ts: seq<Token>)
    requires forall t | t in ts && t.Lit? :: t.u != STAR && t.u != QUESTION
    ensures ParseItems(Render(ts)) == Some(ItemsOf(ts))
  {
    hide TokenText, ItemOf, NoQuantifier;
    if ts != [] {
      var t, rest := ts[0], Render(ts[1..]);
      assert t in ts;
      RenderParses(ts[1..]);
      RenderHasNoQuantifier(ts[1..]);
      if t.AnySegments? {
        GroupItemParses(rest, ItemsOf(ts[1..]));
      } else {
        SimpleItemParses(t, rest, ItemsOf(ts[1..]));
      }
    }
  }

  // ---------- matching read straight off the dialect ----------

  /** The first slash at or after `i`, or the length. */
  function SlashFrom(s: Text, i: nat): (k: nat)
    requires i <= |s|
    ensures i <= k <= |s| && (k < |s| ==> s[k] == SLASH) && forall j | i <= j < k :: s[j] != SLASH
    decreases |s| - i
  {
    if i == |s| || s[i] == SLASH then i else SlashFrom(s, i + 1)
  }

  /** The first segment of `s`. */
  function First(s: Text): Text {
    s[..SlashFrom(s, 0)]
  }

  /** What follows the first slash, if there is one. */
  predicate HasMore(s: Text) {
    SlashFrom(s, 0) < |s|
  }

  function More(s: Text): Text
    requires HasMore(s)
  {
    s[SlashFrom(s, 0) + 1..]
  }

  /** The glob's tokens against a path: each wildcard either stops or takes one more unit,
      or one more whole nonempty segment. */
  predicate GlobMatch(ts: seq<Token>, s: Text)
    decreases |ts| + |s|
  {
    if ts == [] then s == []
    else
      match ts[0]
      case Lit(c) => s != [] && s[0] == c && GlobMatch(ts[1..], s[1..])
      case AnyOne => s != [] && s[0] != SLASH && GlobMatch(ts[1..], s[1..])
      case AnyInSegment => GlobMatch(ts[1..], s) || (s != [] && s[0] != SLASH && GlobMatch(ts, s[1..]))
      case Anything => GlobMatch(ts[1..], s) || (s != [] && GlobMatch(ts, s[1..]))
      case AnySegments => GlobMatch(ts[1..], s) || (HasMore(s) && First(s) != [] && GlobMatch(ts, More(s)))
  }

  predicate NoLineEnd(s: Text) {
    forall k | 0 <= k < |s| :: !IsLineEnd(s[k])
  }

  lemma FirstThenRest(item: Item, items: seq<Item>, s: Text, k: nat)
    requires k <= |s| && MatchItem(item, s[..k]) && MatchItems(items, s[k..])
    ensures MatchItems([item] + items, s)
  {
    hide MatchItem;
    var all := [item] + items;
    assert all[1..] == items;
    assert MatchItem(all[0], s[..k]) && MatchItems(all[1..], s[k..]);
  }

  lemma WhereFirstEnds(item: Item, items: seq<Item>, s: Text) returns (k: nat)
    requires MatchItems([item] + items, s)
    ensures k <= |s| && MatchItem(item, s[..k]) && MatchItems(items, s[k..])
  {
    hide MatchItem;
    var all := [item] + items;
    assert all[1..] == items;
    k :| 0 <= k <= |s| && MatchItem(all[0], s[..k]) && MatchItems(all[1..], s[k..]);
  }

  lemma OnceTakesOne(p: Piece, items: seq<Item>, s: Text)
    requires p.times == Once
    ensures MatchItems([One(p)] + items, s) <==> s != [] && p.atom.Takes(s[0]) && MatchItems(items, s[1..])
  {
    hide MatchItems;
    if MatchItems([One(p)] + items, s) {
      var k := WhereFirstEnds(One(p), items, s);
      assert k == 1 && s[..k][0] == s[0];
    }
    if s != [] && p.atom.Takes(s[0]) && MatchItems(items, s[1..]) {
      FirstThenRest(One(p), items, s, 1);
    }
  }

  /** A starred atom stops here or takes one more unit. */
  lemma ManyTakesMore(p: Piece, items: seq<Item>, s: Text)
    requires p.times == Many
    ensures MatchItems([One(p)] + items, s)
       <==> MatchItems(items, s) || (s != [] && p.atom.Takes(s[0]) && MatchItems([One(p)] + items, s[1..]))
  {
    hide MatchItems, Simple.Takes;
    if MatchItems([One(p)] + items, s) {
      ManyUnrolls(p, items, s);
    }
    if MatchItems(items, s) {
      assert s[0..] == s;
      FirstThenRest(One(p), items, s, 0);
    }
    if s != [] && p.atom.Takes(s[0]) && MatchItems([One(p)] + items, s[1..]) {
      var t := s[1..];
      var k := WhereFirstEnds(One(p), items, t);
      assert s[..k + 1] == [s[0]] + t[..k] && s[k + 1..] == t[k..];
      FirstThenRest(One(p), items, s, k + 1);
    }
  }

  lemma ManyUnrolls(p: Piece, items: seq<Item>, s: Text)
    requires p.times == Many && MatchItems([One(p)] + items, s)
    ensures MatchItems(items, s) || (s != [] && p.atom.Takes(s[0]) && MatchItems([One(p)] + items, s[1..]))
  {
    hide MatchItems, Simple.Takes;
    var k := WhereFirstEnds(One(p), items, s);
    if k == 0 {
      assert s[k..] == s;
    } else {
      var t := s[1..];
      assert s[..k][0] == s[0];
      assert t[..k - 1] == s[..k][1..] && t[k - 1..] == s[k..];
      FirstThenRest(One(p), items, t, k - 1);
    }
  }

  /** The group takes exactly a nonempty segment and its slash. */
  lemma GroupIsSegment(s: Text)
    ensures MatchPieces(ItemOf(AnySegments).pieces, s)
       <==> HasMore(s) && First(s) != [] && More(s) == []
  {
    hide MatchPieces;
    var segment, slash := Piece(NOT_SLASH, Some1), Piece(Chr(SLASH), Once);
    GroupPieces();
    assert [segment] + [slash] == [segment, slash];
    if MatchPieces([segment, slash], s) {
      var k := WhereSegmentEnds(segment, slash, s);
      assert s[k] == s[k..][0] == SLASH;
      assert forall j | 0 <= j < k :: s[j] == s[..k][j];
      assert SlashFrom(s, 0) == k;
    }
    if HasMore(s) && First(s) != [] && More(s) == [] {
      var k := SlashFrom(s, 0);
      assert |More(s)| == |s| - k - 1;
      assert s[k..] == [SLASH];
      SlashPiece(slash, s[k..]);
      TwoPieces(segment, slash, s, k);
    }
  }

  lemma WhereSegmentEnds(segment: Piece, slash: Piece, s: Text) returns (k: nat)
    requires slash == Piece(Chr(SLASH), Once) && MatchPieces([segment, slash], s)
    ensures k < |s| && MatchPiece(segment, s[..k]) && s[k..] == [SLASH]
  {
    var ps := [segment, slash];
    assert ps[1..] == [slash];
    k :| 0 <= k <= |s| && MatchPiece(ps[0], s[..k]) && MatchPieces(ps[1..], s[k..]);
    SlashPiece(slash, s[k..]);
  }

  lemma TwoPieces(p: Piece, q: Piece, s: Text, k: nat)
    requires k <= |s| && MatchPiece(p, s[..k]) && MatchPieces([q], s[k..])
    ensures MatchPieces([p, q], s)
  {
    hide MatchPiece;
    var ps := [p, q];
    assert ps[1..] == [q];
    assert MatchPiece(ps[0], s[..k]) && MatchPieces(ps[1..], s[k..]);
  }

  lemma SlashPiece(p: Piece, s: Text)
    requires p == Piece(Chr(SLASH), Once)
    ensures MatchPieces([p], s) <==> s == [SLASH]
  {
    var ps := [p];
    assert ps[1..] == [];
    if MatchPieces(ps, s) {
      var k :| 0 <= k <= |s| && MatchPiece(ps[0], s[..k]) && MatchPieces(ps[1..], s[k..]);
      assert k == 1 && s[..k][0] == s[0] && |s| == 1;
    }
    if s == [SLASH] {
      assert s[..1] == s && s[1..] == [];
      assert MatchPiece(ps[0], s[..1]) && MatchPieces(ps[1..], s[1..]);
    }
  }

  /** The leading segment of a prefix that ends in the same slash. */
  lemma LeadingSegment(s: Text, k: nat)
    requires 0 < k <= |s| && HasMore(s[..k]) && More(s[..k]) == []
    ensures HasMore(s) && SlashFrom(s, 0) == k - 1 && First(s) == First(s[..k]) && More(s) == s[k..]
  {
    var i := SlashFrom(s[..k], 0);
    assert |More(s[..k])| == k - i - 1;
    assert s[i] == s[..k][i];
    assert forall j | 0 <= j < i :: s[j] == s[..k][j];
  }

  /** The looped group stops here or takes one more whole segment. */
  lemma LoopTakesSegments(items: seq<Item>, s: Text)
    ensures MatchItems([ItemOf(AnySegments)] + items, s)
       <==> MatchItems(items, s)
            || (HasMore(s) && First(s) != [] && MatchItems([ItemOf(AnySegments)] + items, More(s)))
  {
    hide MatchItems, MatchPieces, First, More, HasMore, ItemOf;
    if MatchItems([ItemOf(AnySegments)] + items, s) {
      LoopUnrolls(items, s);
    }
    if MatchItems(items, s) {
      assert s[..0] == [] && s[0..] == s;
      GroupPieces();
      FirstThenRest(ItemOf(AnySegments), items, s, 0);
    }
    if HasMore(s) && First(s) != [] && MatchItems([ItemOf(AnySegments)] + items, More(s)) {
      LoopRolls(items, s);
    }
  }

  lemma LoopUnrolls(items: seq<Item>, s: Text)
    requires MatchItems([ItemOf(AnySegments)] + items, s)
    ensures MatchItems(items, s)
            || (HasMore(s) && First(s) != [] && MatchItems([ItemOf(AnySegments)] + items, More(s)))
  {
    hide MatchItems, MatchPieces, First, More, HasMore, ItemOf;
    GroupPieces();
    var loop := ItemOf(AnySegments);
    var k := WhereFirstEnds(loop, items, s);
    if k == 0 {
      assert s[k..] == s;
    } else {
      var t := s[..k];
      var j :| 0 < j <= |t| && MatchPieces(loop.pieces, t[..j]) && MatchLoop(loop.pieces, t[j..]);
      assert t[..j] == s[..j];
      GroupIsSegment(s[..j]);
      LeadingSegment(s, j);
      assert More(s)[..k - j] == t[j..] && More(s)[k - j..] == s[k..];
      FirstThenRest(loop, items, More(s), k - j);
    }
  }

  lemma LoopRolls(items: seq<Item>, s: Text)
    requires HasMore(s) && First(s) != [] && MatchItems([ItemOf(AnySegments)] + items, More(s))
    ensures MatchItems([ItemOf(AnySegments)] + items, s)
  {
    hide MatchItems, MatchPieces, First, ItemOf;
    GroupPieces();
    var loop := ItemOf(AnySegments);
    var m := More(s);
    var j := SlashFrom(s, 0) + 1;
    var k := WhereFirstEnds(loop, items, m);
    var t := s[..j + k];
    assert t[..j] == s[..j] && t[j..] == m[..k] && s[j + k..] == m[k..];
    SegmentOf(s);
    GroupIsSegment(s[..j]);
    assert MatchPieces(loop.pieces, t[..j]) && MatchLoop(loop.pieces, t[j..]);
    FirstThenRest(loop, items, s, j + k);
  }

  lemma SegmentOf(s: Text)
    requires HasMore(s)
    ensures var t := s[..SlashFrom(s, 0) + 1]; HasMore(t) && First(t) == First(s) && More(t) == []
  {
    var i := SlashFrom(s, 0);
    var t := s[..i + 1];
    assert t[i] == SLASH;
    assert forall j | 0 <= j < i :: t[j] == s[j];
  }

  /** The compiled items match exactly the paths the dialect does, where the path ends no line or no
      token is a bare double star. */
  lemma {:induction false} ItemsMatchDialect(ts: seq<Token>, s: Text)
    requires NoLineEnd(s) || Anything !in ts
    ensures MatchItems(ItemsOf(ts), s) <==> GlobMatch(ts, s)
    decreases |ts| + |s|
  {
    hide MatchItems, First, More, HasMore;
    if ts == [] {
      assert ItemsOf(ts) == [];
      NothingLeft(s);
    } else {
      var t, rest := ts[0], ItemsOf(ts[1..]);
      assert ItemsOf(ts) == [ItemOf(t)] + rest;
      if t.AnySegments? {
        LoopTakesSegments(rest, s);
        ItemsMatchDialect(ts[1..], s);
        if HasMore(s) {
          MoreIsShorter(s);
          ItemsMatchDialect(ts, More(s));
        }
      } else {
        if t.Lit? || t.AnyOne? {
          OnceTakesOne(ItemOf(t).piece, rest, s);
        } else {
          ManyTakesMore(ItemOf(t).piece, rest, s);
          ItemsMatchDialect(ts[1..], s);
        }
        if s != [] {
          assert NoLineEnd(s) ==> NoLineEnd(s[1..]);
          ItemsMatchDialect(ts[1..], s[1..]);
          if t.AnyInSegment? || t.Anything? {
            ItemsMatchDialect(ts, s[1..]);
          }
        }
      }
    }
  }

  lemma NothingLeft(s: Text)
    ensures MatchItems([], s) <==> s == []
  {
  }

  lemma MoreIsShorter(s: Text)
    requires HasMore(s)
    ensures |More(s)| < |s| && (NoLineEnd(s) ==> NoLineEnd(More(s)))
  {
  }

  /** The pattern compiled from the glob matches the path. */
  predicate CompiledMatch(glob: Text, path: Text) {
    ParsePattern(PatternText(glob)).Some? && MatchItems(ParsePattern(PatternText(glob)).value, path)
  }

  lemma CompiledItems(glob: Text)
    ensures ParsePattern(PatternText(glob)) == Some(ItemsOf(Tokens(WithSubtree(glob))))
  {
    hide ParseItems, Render, ItemsOf, Tokens, WithSubtree;
    var ts := Tokens(WithSubtree(glob));
    var text := PatternText(glob);
    assert text[1..|text| - 1] == Render(ts);
    TokensAreClean(glob);
    RenderParses(ts);
  }

  lemma TokensAreClean(glob: Text)
    ensures forall t | t in Tokens(WithSubtree(glob)) && t.Lit? :: t.u != STAR && t.u != QUESTION
  {
  }

  /** For every glob and every path without line terminators, the compiled pattern is a pattern, and
      it matches exactly when the dialect does. */
  lemma CompiledPatternMeansGlob(glob: Text, path: Text)
    requires NoLineEnd(path)
    ensures ParsePattern(PatternText(glob)).Some?
    ensures MatchItems(ParsePattern(PatternText(glob)).value, path) <==> GlobMatch(Tokens(WithSubtree(glob)), path)
  {
    hide *;
    CompiledItems(glob);
    ItemsMatchDialect(Tokens(WithSubtree(glob)), path);
  }

  // ---------- line terminators in a path ----------

  /** A line feed and two slashes: no wildcard but a bare double star is meant to cross one. */
  const BREAK: Text := [0x0A, SLASH, SLASH]

  /** How many such breaks a path holds. */
  function Breaks(s: Text): nat {
    if |s| < 3 then 0 else (if s[..3] == BREAK then 1 else 0) + Breaks(s[1..])
  }

  /** Joining two texts makes at most one more break, at the joint. */
  lemma {:induction false} BreaksAdd(a: Text, b: Text)
    ensures Breaks(a) + Breaks(b) <= Breaks(a + b) <= Breaks(a) + Breaks(b) + 1
    decreases |a|
  {
    if a == [] {
      assert a + b == b;
    } else {
      var rest := a[1..];
      assert (a + b)[1..] == rest + b;
      BreaksAdd(rest, b);
      if |a| >= 3 {
        assert (a + b)[..3] == a[..3];
      } else if |a| == 2 {
        TwoBeforeTheJoint(a, b);
      } else {
        assert rest + b == b;
      }
    }
  }

  lemma TwoBeforeTheJoint(a: Text, b: Text)
    requires |a| == 2
    ensures Breaks(a + b) <= Breaks(b) + 1
  {
    var one := a[1..];
    assert (a + b)[1..] == one + b;
    assert (one + b)[1..] == b;
    if |b| >= 1 && (a + b)[..3] == BREAK {
      assert (a + b)[..3][1] == a[1] == SLASH;
      if |b| >= 2 {
        assert (one + b)[..3][0] == SLASH;
      }
    }
  }

  /** No slash after another, or no line feed, or no slash: no break. */
  lemma {:induction false} NoBreaks(s: Text)
    requires (forall k | 0 <= k < |s| - 1 :: s[k] != SLASH || s[k + 1] != SLASH) || (forall k | 0 <= k < |s| :: s[k] != 0x0A)
    ensures Breaks(s) == 0
  {
    if |s| >= 3 {
      var rest := s[1..];
      assert s[..3][0] == s[0] && s[..3][1] == s[1] && s[..3][2] == s[2];
      assert forall k | 0 <= k < |rest| :: rest[k] == s[k + 1];
      NoBreaks(rest);
    }
  }

  /** Whole nonempty segments, each with its slash, put no slash after another. */
  lemma {:induction false} LoopHasNoEmptySegment(s: Text)
    requires MatchItem(ItemOf(AnySegments), s)
    ensures forall k | 0 <= k < |s| - 1 :: s[k] != SLASH || s[k + 1] != SLASH
    ensures s != [] ==> s[0] != SLASH
    decreases |s|
  {
    hide MatchPieces, First, More, HasMore;
    var loop := ItemOf(AnySegments);
    GroupPieces();
    if s != [] {
      var j :| 0 < j <= |s| && MatchPieces(loop.pieces, s[..j]) && MatchLoop(loop.pieces, s[j..]);
      LoopHasNoEmptySegment(s[j..]);
      GroupIsSegment(s[..j]);
      LeadingSegment(s, j);
      assert forall k | j <= k < |s| :: s[k] == s[j..][k - j];
      LeadingUnits(s);
    }
  }

  lemma LeadingUnits(s: Text)
    requires HasMore(s) && First(s) != []
    ensures SlashFrom(s, 0) > 0 && forall k | 0 <= k < SlashFrom(s, 0) :: s[k] != SLASH
  {
  }

  lemma ItemTakesNoBreak(t: Token, s: Text)
    requires MatchItem(ItemOf(t), s)
    ensures Breaks(s) == 0
  {
    hide Breaks, MatchLoop;
    if t.AnySegments? {
      LoopHasNoEmptySegment(s);
    }
    NoBreaks(s);
  }

  /** A compiled match crosses at most one break a token. */
  lemma {:induction false} MatchHasFewBreaks(ts: seq<Token>, s: Text)
    requires MatchItems(ItemsOf(ts), s)
    ensures Breaks(s) <= |ts|
    decreases |ts|
  {
    hide MatchItems, MatchItem, ItemOf, Breaks;
    if ts == [] {
      assert ItemsOf(ts) == [];
      NothingLeft(s);
      NoBreaks(s);
    } else {
      var rest := ItemsOf(ts[1..]);
      assert ItemsOf(ts) == [ItemOf(ts[0])] + rest;
      var k := WhereFirstEnds(ItemOf(ts[0]), rest, s);
      ItemTakesNoBreak(ts[0], s[..k]);
      MatchHasFewBreaks(ts[1..], s[k..]);
      assert s == s[..k] + s[k..];
      BreaksAdd(s[..k], s[k..]);
    }
  }

  /** `n` breaks on end. */
  function BreakRun(n: nat): (r: Text)
    ensures Breaks(r) >= n
  {
    if n == 0 then []
    else
      BreaksAdd(BREAK, BreakRun(n - 1));
      BREAK + BreakRun(n - 1)
  }

  /** A path the dialect accepts: nothing for a star, and `run` for a bare double star. */
  function Crossing(ts: seq<Token>, run: Text): Text {
    if ts == [] then []
    else
      (match ts[0]
       case Lit(c) => [c]
       case AnyOne => [DOT]
       case Anything => run
       case _ => []) + Crossing(ts[1..], run)
  }

  lemma {:induction false} AnythingCrosses(ts: seq<Token>, run: Text, s: Text)
    requires ts != [] && ts[0] == Anything && GlobMatch(ts, s)
    ensures GlobMatch(ts, run + s)
    decreases |run|
  {
    if run == [] {
      assert run + s == s;
    } else {
      AnythingCrosses(ts, run[1..], s);
      assert (run + s)[1..] == run[1..] + s;
    }
  }

  lemma {:induction false} CrossingMatches(ts: seq<Token>, run: Text)
    ensures GlobMatch(ts, Crossing(ts, run))
    decreases |ts|
  {
    if ts != [] {
      var rest := Crossing(ts[1..], run);
      CrossingMatches(ts[1..], run);
      match ts[0]
      case Lit(c) => assert ([c] + rest)[1..] == rest;
      case AnyOne => assert ([DOT] + rest)[1..] == rest;
      case Anything =>
        assert GlobMatch(ts, rest);
        AnythingCrosses(ts, run, rest);
      case _ => assert [] + rest == rest;
    }
  }

  lemma {:induction false} CrossingHasBreaks(ts: seq<Token>, run: Text)
    requires Anything in ts
    ensures Breaks(Crossing(ts, run)) >= Breaks(run)
    decreases |ts|
  {
    hide Breaks;
    var rest := Crossing(ts[1..], run);
    if ts[0] == Anything {
      BreaksAdd(run, rest);
    } else {
      CrossingHasBreaks(ts[1..], run);
      var piece := match ts[0] case Lit(c) => [c] case AnyOne => [DOT] case _ => [];
      BreaksAdd(piece, rest);
    }
  }

  /** Wherever a bare double star stands, some path with line feeds in it is one the dialect accepts and the
      compiled pattern refuses. */
  lemma {:induction false} BareStarRefusesABreak(ts: seq<Token>)
    requires Anything in ts
    ensures var path := Crossing(ts, BreakRun(|ts| + 1)); GlobMatch(ts, path) && !MatchItems(ItemsOf(ts), path)
  {
    hide *;
    var run := BreakRun(|ts| + 1);
    CrossingMatches(ts, run);
    CrossingHasBreaks(ts, run);
    if MatchItems(ItemsOf(ts), Crossing(ts, run)) {
      MatchHasFewBreaks(ts, Crossing(ts, run));
    }
  }

  /** The compiled pattern means the glob on every path, whatever it holds, if and only if no double star of
      the glob is bare: neither without a slash behind it nor made from a trailing slash. */
  lemma AgreesExactlyWithoutBareStars(glob: Text)
    ensures (forall path :: CompiledMatch(glob, path) <==> GlobMatch(Tokens(WithSubtree(glob)), path))
       <==> Anything !in Tokens(WithSubtree(glob))
  {
    hide GlobMatch, MatchItems, ItemsOf, Tokens, WithSubtree, ParsePattern, PatternText, Crossing, BreakRun;
    var ts := Tokens(WithSubtree(glob));
    CompiledItems(glob);
    if Anything in ts {
      BareStarRefusesABreak(ts);
      var path := Crossing(ts, BreakRun(|ts| + 1));
      assert CompiledMatch(glob, path) != GlobMatch(ts, path);
    } else {
      forall path
        ensures CompiledMatch(glob, path) <==> GlobMatch(ts, path)
      {
        ItemsMatchDialect(ts, path);
      }
    }
  }

  /** The shortest such path: a bare double star alone does not match a line feed. */
  lemma LineEndIsNotCrossed()
    ensures var glob, path := [STAR, STAR], [0x0A];
            && ParsePattern(PatternText(glob)).Some?
            && !MatchItems(ParsePattern(PatternText(glob)).value, path)
            && GlobMatch(Tokens(WithSubtree(glob)), path)
  {
    var glob: Text, path: Text := [STAR, STAR], [0x0A];
    var ts := Tokens(WithSubtree(glob));
    assert TokensFrom(glob, 2) == [];
    assert ts == [Anything];
    var text := PatternText(glob);
    assert text[1..|text| - 1] == Render(ts);
    RenderParses(ts);
    var items := ItemsOf(ts);
    assert items == [ItemOf(Anything)] + [];
    assert items[1..] == [];
    forall k | 0 <= k <= |path|
      ensures !(MatchItem(items[0], path[..k]) && MatchItems(items[1..], path[k..]))
    {
      if k == 1 {
        assert path[..k][0] == 0x0A;
      }
    }
    assert GlobMatch(ts[1..], path[1..]);
    assert GlobMatch(ts, path[1..]);
  }
}
