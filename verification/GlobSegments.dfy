/** The glob dialect segment by segment, as its documentation puts it, and its agreement with the
    compiled pattern (`lib/kernel/coupling.js`). */
module GlobSegments {
  import opened Common
  import opened Glob

  const DEEP: Text := [STAR, STAR]

  /** `s.split("/")`. */
  function Segments(s: Text): (r: seq<Text>)
    ensures r != []
    decreases |s|
  {
    if HasMore(s) then [First(s)] + Segments(More(s)) else [s]
  }

  /** Within one segment: `*` is any run, `?` any one unit. */
  predicate WildMatch(seg: Text, part: Text)
    decreases |seg| + |part|
  {
    if seg == [] then part == []
    else if seg[0] == STAR then WildMatch(seg[1..], part) || (part != [] && WildMatch(seg, part[1..]))
    else part != [] && (seg[0] == QUESTION || seg[0] == part[0]) && WildMatch(seg[1..], part[1..])
  }

  /** Segment against segment; a double star skips any number of nonempty segments, and at the end
      takes the whole of what is there. */
  predicate SegMatch(gs: seq<Text>, ps: seq<Text>)
    decreases |gs| + |ps|
  {
    if gs == [] then ps == []
    else if gs[0] == DEEP then
      if |gs| == 1 then ps != []
      else SegMatch(gs[1..], ps) || (ps != [] && ps[0] != [] && SegMatch(gs, ps[1..]))
    else ps != [] && WildMatch(gs[0], ps[0]) && SegMatch(gs[1..], ps[1..])
  }

  /** A segment without two stars in a row. */
  predicate Plain(seg: Text) {
    forall k | 0 <= k < |seg| :: seg[k] != SLASH && !(k + 1 < |seg| && seg[k] == STAR && seg[k + 1] == STAR)
  }

  /** Double stars stand only as whole segments. */
  predicate WholeStars(g: Text) {
    forall seg | seg in Segments(g) :: seg == DEEP || Plain(seg)
  }

  // ---------- tokens, segment by segment ----------

  lemma {:induction false} TokensOfSuffix(g: Text, i: nat, j: nat)
    requires i <= j <= |g|
    ensures TokensFrom(g, j) == TokensFrom(g[i..], j - i)
    decreases |g| - j
  {
    if j < |g| {
      assert TokenAt(g, j) == TokenAt(g[i..], j - i);
      TokensOfSuffix(g, i, j + Width(TokenAt(g, j)));
    }
  }

  lemma FirstToken(g: Text)
    requires g != []
    ensures Tokens(g) == [TokenAt(g, 0)] + Tokens(g[Width(TokenAt(g, 0))..])
  {
    hide TokenAt;
    var w := Width(TokenAt(g, 0));
    TokensOfSuffix(g, w, w);
  }

  lemma {:induction false} PlainTokens(seg: Text, rest: Text)
    requires Plain(seg)
    ensures Tokens(seg + [SLASH] + rest) == Tokens(seg) + [Lit(SLASH)] + Tokens(rest)
  {
    hide Tokens;
    var g := seg + [SLASH] + rest;
    FirstToken(g);
    if seg == [] {
      assert g[1..] == rest;
      NoTokens();
    } else {
      assert TokenAt(seg, 0) == TokenAt(g, 0) && Width(TokenAt(g, 0)) == 1 by {
        assert !(1 < |seg| && seg[0] == STAR && seg[1] == STAR);
      }
      FirstToken(seg);
      PlainTail(seg);
      PlainTokens(seg[1..], rest);
      assert g[1..] == seg[1..] + [SLASH] + rest;
      assert [TokenAt(seg, 0)] + (Tokens(seg[1..]) + [Lit(SLASH)] + Tokens(rest))
          == [TokenAt(seg, 0)] + Tokens(seg[1..]) + [Lit(SLASH)] + Tokens(rest);
    }
  }

  lemma NoTokens()
    ensures Tokens([]) == []
  {
  }

  lemma PlainTail(seg: Text)
    requires Plain(seg) && seg != []
    ensures Plain(seg[1..])
    ensures seg[0] != SLASH
    ensures TokenAt(seg, 0) == (if seg[0] == STAR then AnyInSegment else if seg[0] == QUESTION then AnyOne else Lit(seg[0]))
  {
    assert !(1 < |seg| && seg[0] == STAR && seg[1] == STAR);
    forall k | 0 <= k < |seg[1..]|
      ensures seg[1..][k] != SLASH
      ensures !(k + 1 < |seg[1..]| && seg[1..][k] == STAR && seg[1..][k + 1] == STAR)
    {
      assert seg[1..][k] == seg[k + 1];
    }
  }

  // ---------- one plain segment ----------

  /** Past a unit that is no slash, the first segment is one unit longer. */
  lemma FirstStep(s: Text)
    requires s != []
    ensures s[0] == SLASH ==> HasMore(s) && First(s) == [] && More(s) == s[1..]
    ensures s[0] != SLASH ==> HasMore(s) == HasMore(s[1..]) && First(s) == [s[0]] + First(s[1..])
    ensures s[0] != SLASH && HasMore(s) ==> More(s) == More(s[1..])
  {
    if s[0] != SLASH {
      SlashMoves(s, 1);
      assert First(s) == [s[0]] + First(s[1..]);
    }
  }

  lemma {:induction false} SlashMoves(s: Text, i: nat)
    requires 1 <= i <= |s|
    ensures SlashFrom(s, i) == SlashFrom(s[1..], i - 1) + 1
    decreases |s| - i
  {
    if i < |s| && s[i] != SLASH {
      SlashMoves(s, i + 1);
    }
  }

  lemma NoMoreIn()
    ensures !HasMore([]) && First([]) == []
  {
  }

  lemma {:induction false} PlainSegmentThenMore(seg: Text, ts: seq<Token>, s: Text)
    requires Plain(seg)
    ensures GlobMatch(Tokens(seg) + [Lit(SLASH)] + ts, s)
       <==> HasMore(s) && WildMatch(seg, First(s)) && GlobMatch(ts, More(s))
    decreases |seg| + |s|
  {
    hide Tokens, First, More, HasMore, TokenAt, Plain;
    var all := Tokens(seg) + [Lit(SLASH)] + ts;
    NoMoreIn();
    if s != [] {
      FirstStep(s);
    }
    if seg == [] {
      NoTokens();
      assert all == [Lit(SLASH)] + ts && all[1..] == ts;
    } else {
      FirstToken(seg);
      PlainTail(seg);
      var rest := Tokens(seg[1..]) + [Lit(SLASH)] + ts;
      assert all[0] == TokenAt(seg, 0) && all[1..] == rest;
      if seg[0] == STAR {
        PlainSegmentThenMore(seg[1..], ts, s);
        if s != [] && s[0] != SLASH {
          PlainSegmentThenMore(seg, ts, s[1..]);
          assert First(s)[1..] == First(s[1..]);
        }
      } else if s != [] {
        PlainSegmentThenMore(seg[1..], ts, s[1..]);
        if s[0] != SLASH {
          assert First(s)[1..] == First(s[1..]);
        }
      }
    }
  }

  lemma {:induction false} PlainLastSegment(seg: Text, s: Text)
    requires Plain(seg)
    ensures GlobMatch(Tokens(seg), s) <==> !HasMore(s) && WildMatch(seg, s)
    decreases |seg| + |s|
  {
    hide Tokens, First, More, HasMore, TokenAt, Plain;
    NoMoreIn();
    if s != [] {
      FirstStep(s);
    }
    if seg == [] {
      NoTokens();
    } else {
      FirstToken(seg);
      PlainTail(seg);
      assert Tokens(seg)[1..] == Tokens(seg[1..]);
      if seg[0] == STAR {
        PlainLastSegment(seg[1..], s);
        if s != [] && s[0] != SLASH {
          PlainLastSegment(seg, s[1..]);
        }
        if s != [] && s[0] == SLASH {
          assert HasMore(s);
        }
      } else if s != [] {
        PlainLastSegment(seg[1..], s[1..]);
      }
    }
  }

  // ---------- whole globs ----------

  lemma {:induction false} AnythingTakesAll(s: Text)
    ensures GlobMatch([Anything], s)
  {
    if s == [] {
      assert GlobMatch([Anything][1..], s);
    } else {
      AnythingTakesAll(s[1..]);
    }
  }

  lemma DeepTokens(rest: Text)
    ensures Tokens(DEEP) == [Anything]
    ensures Tokens(DEEP + [SLASH] + rest) == [AnySegments] + Tokens(rest)
  {
    FirstToken(DEEP);
    assert DEEP[2..] == [];
    var g := DEEP + [SLASH] + rest;
    FirstToken(g);
    assert g[3..] == rest;
  }

  lemma NoPartNoMatch(gs: seq<Text>)
    requires gs != []
    ensures !SegMatch(gs, [])
  {
  }

  lemma FirstThenMore(s: Text)
    requires HasMore(s)
    ensures s == First(s) + [SLASH] + More(s) && |More(s)| < |s|
    ensures Segments(s)[0] == First(s) && Segments(s)[1..] == Segments(More(s))
  {
  }

  lemma OneSegment(s: Text)
    requires !HasMore(s)
    ensures Segments(s) == [s]
  {
  }

  lemma WholeStarsInMore(g: Text)
    requires WholeStars(g) && HasMore(g)
    ensures WholeStars(More(g)) && (First(g) == DEEP || Plain(First(g)))
  {
    hide Plain;
    FirstThenMore(g);
    assert Segments(g)[0] in Segments(g);
    forall seg | seg in Segments(More(g))
      ensures seg in Segments(g)
    {
      var k :| 0 <= k < |Segments(More(g))| && Segments(More(g))[k] == seg;
      assert Segments(g)[k + 1] == seg;
    }
  }

  /** Unit by unit and segment by segment, the dialect says the same. */
  lemma {:induction false} SegmentwiseIsTheDialect(g: Text, s: Text)
    requires WholeStars(g)
    ensures GlobMatch(Tokens(g), s) <==> SegMatch(Segments(g), Segments(s))
    decreases |g| + |s|
  {
    hide GlobMatch, SegMatch, Tokens, Segments, First, More, HasMore, WildMatch, WholeStars, Plain;
    if !HasMore(g) {
      LastSegmentAgrees(g, s);
    } else {
      var seg, rest := First(g), More(g);
      FirstThenMore(g);
      WholeStarsInMore(g);
      SegmentwiseIsTheDialect(rest, s);
      if HasMore(s) {
        FirstThenMore(s);
        SegmentwiseIsTheDialect(g, More(s));
        SegmentwiseIsTheDialect(rest, More(s));
      } else {
        OneSegment(s);
      }
      if seg == DEEP {
        DeepTokens(rest);
        DeepStep(Tokens(rest), s, Segments(g));
      } else {
        PlainTokens(seg, rest);
        PlainSegmentThenMore(seg, Tokens(rest), s);
        PlainStep(Segments(g), s);
      }
    }
  }

  lemma LastSegmentAgrees(g: Text, s: Text)
    requires !HasMore(g) && WholeStars(g)
    ensures GlobMatch(Tokens(g), s) <==> SegMatch(Segments(g), Segments(s))
  {
    hide GlobMatch, Tokens, First, More, HasMore, WildMatch, Plain;
    OneSegment(g);
    assert g in Segments(g);
    if g == DEEP {
      DeepTokens([]);
      AnythingTakesAll(s);
    } else {
      PlainLastSegment(g, s);
      if HasMore(s) {
        FirstThenMore(s);
      } else {
        OneSegment(s);
      }
      assert [g][1..] == [];
    }
  }

  lemma DeepStep(ts: seq<Token>, s: Text, gs: seq<Text>)
    requires |gs| >= 2 && gs[0] == DEEP
    requires GlobMatch(ts, s) <==> SegMatch(gs[1..], Segments(s))
    requires HasMore(s) ==> (GlobMatch([AnySegments] + ts, More(s)) <==> SegMatch(gs, Segments(More(s))))
    ensures GlobMatch([AnySegments] + ts, s) <==> SegMatch(gs, Segments(s))
  {
    hide First, More, HasMore;
    assert ([AnySegments] + ts)[1..] == ts;
    if HasMore(s) {
      FirstThenMore(s);
    } else {
      OneSegment(s);
      assert Segments(s)[1..] == [];
      NoPartNoMatch(gs);
    }
  }

  lemma PlainStep(gs: seq<Text>, s: Text)
    requires gs != [] && gs[0] != DEEP && (HasMore(s) || |gs| >= 2)
    ensures HasMore(s) ==>
              (SegMatch(gs, Segments(s)) <==> WildMatch(gs[0], First(s)) && SegMatch(gs[1..], Segments(More(s))))
    ensures !HasMore(s) ==> !SegMatch(gs, Segments(s))
  {
    hide First, More, HasMore, WildMatch;
    if HasMore(s) {
      FirstThenMore(s);
    } else {
      OneSegment(s);
      assert Segments(s)[1..] == [];
      NoPartNoMatch(gs[1..]);
    }
  }

  /** The compiled pattern matches a path exactly when the segments do, for every glob whose double
      stars are whole segments and every path without line terminators. */
  lemma {:induction false} CompiledPatternIsSegmentwise(glob: Text, path: Text)
    requires NoLineEnd(path) && WholeStars(WithSubtree(glob))
    ensures ParsePattern(PatternText(glob)).Some?
    ensures MatchItems(ParsePattern(PatternText(glob)).value, path)
       <==> SegMatch(Segments(WithSubtree(glob)), Segments(path))
  {
    hide *;
    CompiledPatternMeansGlob(glob, path);
    SegmentwiseIsTheDialect(WithSubtree(glob), path);
  }

  /** A trailing slash adds one double star as the last segment, in place of the empty one. */
  lemma {:induction false} TrailingSlashIsSubtree(glob: Text)
    requires glob != [] && glob[|glob| - 1] == SLASH
    ensures var gs := Segments(glob);
            Segments(WithSubtree(glob)) == gs[..|gs| - 1] + [DEEP] && gs[|gs| - 1] == []
    decreases |glob|
  {
    hide WithSubtree, First, More, HasMore, Segments;
    SubtreeText(glob);
    TrailingParts(glob);
    FirstThenMore(glob);
    FirstThenMore(glob + DEEP);
    var m := More(glob);
    if m == [] {
      NoMoreIn();
      OneSegment([]);
      DeepIsOneSegment();
      assert [] + DEEP == DEEP;
    } else {
      TrailingSlashIsSubtree(m);
      SubtreeText(m);
    }
  }

  lemma TrailingParts(glob: Text)
    requires glob != [] && glob[|glob| - 1] == SLASH
    ensures HasMore(glob) && HasMore(glob + DEEP)
    ensures First(glob + DEEP) == First(glob) && More(glob + DEEP) == More(glob) + DEEP
    ensures More(glob) != [] ==> More(glob)[|More(glob)| - 1] == SLASH
  {
    var g := glob + DEEP;
    assert HasMore(glob);
    SlashStays(glob, DEEP, 0);
    assert First(g) == First(glob);
    assert More(g) == More(glob) + DEEP;
  }

  lemma DeepIsOneSegment()
    ensures Segments(DEEP) == [DEEP]
  {
    assert SlashFrom(DEEP, 1) == 2;
    OneSegment(DEEP);
  }

  lemma SubtreeText(glob: Text)
    requires glob != [] && glob[|glob| - 1] == SLASH
    ensures WithSubtree(glob) == glob + DEEP
  {
  }

  lemma {:induction false} SlashStays(s: Text, more: Text, i: nat)
    requires i <= |s| && SlashFrom(s, i) < |s|
    ensures SlashFrom(s + more, i) == SlashFrom(s, i)
    decreases |s| - i
  {
    if s[i] != SLASH {
      SlashStays(s, more, i + 1);
    }
  }
}
