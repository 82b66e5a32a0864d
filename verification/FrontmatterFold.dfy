/** Folding an indented line onto a scalar always changes its value (`lib/kernel/frontmatter.js`). */
module FrontmatterFold {
  import opened Common
  import opened ContentText
  import opened FrontmatterScalar
  import opened FrontmatterLines
  import opened FrontmatterLexer
  import opened FrontmatterCore

  /** How many spaces a text holds. */
  function Spaces(t: Text): nat {
    if t == [] then 0 else (if t[0] == SPACE then 1 else 0) + Spaces(t[1..])
  }

  lemma {:induction false} SpacesAdd(a: Text, b: Text)
    ensures Spaces(a + b) == Spaces(a) + Spaces(b)
  {
    if a == [] {
      assert a + b == b;
    } else {
      SpacesAdd(a[1..], b);
      assert (a + b)[1..] == a[1..] + b;
    }
  }

  // ---------- reading a scalar keeps its spaces ----------

  lemma {:induction false} UnescapeKeepsSpaces(s: Text)
    ensures Spaces(UnescapeDouble(s)) >= Spaces(s)
    decreases |s|
  {
    hide HexOf, Spaces, UnescapeDouble;
    if s == [] {
      NothingToUnescape();
    } else if s == [BACKSLASH] {
      LoneBackslash();
    } else {
      var n := if s[0] != BACKSLASH then 1
               else if HexEscape(s, 6, SMALL_U) then 6 else if HexEscape(s, 4, SMALL_X) then 4 else 2;
      UnescapeHead(s, n);
      UnescapeKeepsSpaces(s[n..]);
      HeadKeepsSpaces(s, n);
      SpacesAdd(Head(s, n), UnescapeDouble(s[n..]));
      SpacesAdd(s[..n], s[n..]);
      assert s == s[..n] + s[n..];
    }
  }

  lemma HeadKeepsSpaces(s: Text, n: nat)
    requires s != [] && |s| >= n
    requires if s[0] != BACKSLASH then n == 1
             else if HexEscape(s, 6, SMALL_U) then n == 6 else if HexEscape(s, 4, SMALL_X) then n == 4 else n == 2
    ensures Spaces(Head(s, n)) >= Spaces(s[..n])
  {
    hide HexOf, Spaces;
    if n == 1 {
      assert s[..1] == [s[0]];
    } else if n == 2 {
      assert s[..2] == [BACKSLASH, s[1]];
      LetterKeepsSpaces(s[1]);
    } else {
      HexHasNoSpace(s, n);
    }
  }

  /** `\u` or `\x` and its digits, `n` units in all. */
  predicate HexEscape(s: Text, n: nat, mark: Unit) {
    |s| >= n && n >= 2 && s[0] == BACKSLASH && s[1] == mark && forall k | 2 <= k < n :: IsHex(s[k])
  }

  function Letter(c: Unit): Text {
    match Escape(c)
    case Some(u) => [u]
    case None => [BACKSLASH, c]
  }

  lemma LetterKeepsSpaces(c: Unit)
    ensures Spaces(Letter(c)) >= Spaces([BACKSLASH, c])
  {
    assert [BACKSLASH, c][1..] == [c];
    if Escape(c).Some? && c == SPACE {
      assert Letter(c) == [c];
    } else if c != SPACE {
      NoSpaces([BACKSLASH, c]);
    }
  }

  lemma HexHasNoSpace(s: Text, n: nat)
    requires (n == 6 && HexEscape(s, 6, SMALL_U)) || (n == 4 && HexEscape(s, 4, SMALL_X))
    ensures Spaces(s[..n]) == 0
  {
    NoSpaces(s[..n]);
  }

  lemma {:induction false} NoSpaces(s: Text)
    requires forall k | 0 <= k < |s| :: s[k] != SPACE
    ensures Spaces(s) == 0
  {
    if s != [] {
      NoSpaces(s[1..]);
    }
  }

  /** What unescapes before a quote unescapes the same with the rest behind it, but for a lone backslash. */
  lemma {:induction false} UnescapeGrows(a: Text, b: Text)
    requires b != [] && b[0] == DQ
    ensures Spaces(UnescapeDouble(a + b)) >= Spaces(UnescapeDouble(a)) + Spaces(b)
    decreases |a|
  {
    hide HexOf, Spaces, UnescapeDouble;
    var s := a + b;
    if a == [] {
      assert s == b;
      NothingToUnescape();
      NoSpaces([]);
      UnescapeKeepsSpaces(b);
    } else if a[0] != BACKSLASH {
      assert s[1..] == a[1..] + b;
      UnescapeHead(a, 1);
      UnescapeHead(s, 1);
      UnescapeGrows(a[1..], b);
      SpacesAdd([a[0]], UnescapeDouble(a[1..]));
      SpacesAdd([a[0]], UnescapeDouble(s[1..]));
    } else if |a| == 1 {
      assert s[2..] == b[1..] && a == [BACKSLASH];
      UnescapeHead(s, 2);
      UnescapeKeepsSpaces(b[1..]);
      LoneBackslash();
      NoSpaces(a);
      NoSpaces([DQ]);
      assert b == [DQ] + b[1..];
      SpacesAdd([DQ], b[1..]);
      SpacesAdd(Letter(DQ), UnescapeDouble(s[2..]));
    } else {
      var n := if HexEscape(a, 6, SMALL_U) then 6 else if HexEscape(a, 4, SMALL_X) then 4 else 2;
      SameHead(a, b);
      assert s[n..] == a[n..] + b;
      UnescapeHead(a, n);
      UnescapeHead(s, n);
      UnescapeGrows(a[n..], b);
      var head := Head(a, n);
      assert Head(s, n) == head;
      SpacesAdd(head, UnescapeDouble(a[n..]));
      SpacesAdd(head, UnescapeDouble(s[n..]));
    }
  }

  lemma LoneBackslash()
    ensures UnescapeDouble([BACKSLASH]) == [BACKSLASH]
  {
  }

  lemma SameHead(a: Text, b: Text)
    requires |a| >= 2 && b != [] && b[0] == DQ
    ensures HexEscape(a + b, 6, SMALL_U) == HexEscape(a, 6, SMALL_U)
    ensures HexEscape(a + b, 4, SMALL_X) == HexEscape(a, 4, SMALL_X)
  {
    var s := a + b;
    assert forall k | 0 <= k < |a| :: s[k] == a[k];
    assert s[|a|] == DQ && !IsHex(s[|a|]);
  }

  /** What the first escape or unit comes to, the first `n` units read. */
  function Head(s: Text, n: nat): Text
    requires |s| >= n && (n == 1 || n == 2 || (n == 6 && HexEscape(s, 6, SMALL_U)) || (n == 4 && HexEscape(s, 4, SMALL_X)))
  {
    if n == 6 then [HexOf(s[2]) * 4096 + HexOf(s[3]) * 256 + HexOf(s[4]) * 16 + HexOf(s[5])]
    else if n == 4 then [HexOf(s[2]) * 16 + HexOf(s[3])]
    else if n == 2 then Letter(s[1])
    else [s[0]]
  }

  lemma UnescapeHead(s: Text, n: nat)
    requires s != [] && |s| >= n
    requires if s[0] != BACKSLASH then n == 1
             else if HexEscape(s, 6, SMALL_U) then n == 6 else if HexEscape(s, 4, SMALL_X) then n == 4 else n == 2
    ensures UnescapeDouble(s) == Head(s, n) + UnescapeDouble(s[n..])
  {
    hide HexOf, IsHex, Escape;
    if n == 1 {
    } else if n == 6 {
      assert IsHex(s[2]) && IsHex(s[3]) && IsHex(s[4]) && IsHex(s[5]);
    } else {
      NoUnicode(s);
      if n == 4 {
        assert IsHex(s[2]) && IsHex(s[3]);
      } else {
        NoByte(s);
      }
    }
  }

  lemma NoUnicode(s: Text)
    requires |s| >= 2 && s[0] == BACKSLASH && !HexEscape(s, 6, SMALL_U)
    ensures !(|s| >= 6 && s[1] == SMALL_U && IsHex(s[2]) && IsHex(s[3]) && IsHex(s[4]) && IsHex(s[5]))
  {
    hide IsHex;
  }

  lemma NoByte(s: Text)
    requires |s| >= 2 && s[0] == BACKSLASH && !HexEscape(s, 4, SMALL_X)
    ensures !(|s| >= 4 && s[1] == SMALL_X && IsHex(s[2]) && IsHex(s[3]))
  {
    hide IsHex;
  }

  lemma {:induction false} FoldQuotesKeepsSpaces(s: Text)
    ensures Spaces(FoldQuotes(s)) == Spaces(s)
    decreases |s|
  {
    if s != [] {
      if |s| >= 2 && s[0] == SQ && s[1] == SQ {
        FoldQuotesKeepsSpaces(s[2..]);
        SpacesAdd([SQ], FoldQuotes(s[2..]));
        assert s[1..][1..] == s[2..];
      } else {
        FoldQuotesKeepsSpaces(s[1..]);
        SpacesAdd([s[0]], FoldQuotes(s[1..]));
      }
    }
  }

  lemma UnquoteKeepsSpaces(s: Text)
    ensures Spaces(Unquote(s)) == Spaces(s) && |s| - 2 <= |Unquote(s)| <= |s|
  {
    var t := if s != [] && IsQuote(s[0]) then s[1..] else s;
    if t != [] && IsQuote(t[|t| - 1]) {
      var front := t[..|t| - 1];
      assert t == front + [t[|t| - 1]];
      SpacesAdd(front, [t[|t| - 1]]);
      NoSpaces([t[|t| - 1]]);
    }
  }

  lemma {:induction false} UnescapeShortens(s: Text)
    ensures |UnescapeDouble(s)| <= |s|
    decreases |s|
  {
    hide HexOf;
    if s != [] && !(|s| == 1 && s[0] == BACKSLASH) {
      var n := if s[0] != BACKSLASH then 1
               else if HexEscape(s, 6, SMALL_U) then 6 else if HexEscape(s, 4, SMALL_X) then 4 else 2;
      UnescapeHead(s, n);
      UnescapeShortens(s[n..]);
    }
  }

  lemma {:induction false} FoldQuotesShortens(s: Text)
    ensures |FoldQuotes(s)| <= |s|
    decreases |s|
  {
    if s != [] {
      if |s| >= 2 && s[0] == SQ && s[1] == SQ {
        FoldQuotesShortens(s[2..]);
      } else {
        FoldQuotesShortens(s[1..]);
      }
    }
  }

  // ---------- a longer raw text, another value ----------

  /** Longer, or with more spaces: in any case another text, and appending keeps it so. */
  predicate Grown(was: Text, now: Text) {
    |now| > |was| || Spaces(now) > Spaces(was)
  }

  lemma GrownMore(was: Text, now: Text, more: Text)
    requires Grown(was, now)
    ensures Grown(was, now + more)
  {
    SpacesAdd(now, more);
  }

  /** The text between the quotes. */
  function Inner(t: Text): Text
    requires |t| >= 2
  {
    t[1..|t| - 1]
  }

  lemma QuotedParts(t: Text, q: Unit)
    requires WhollyQuoted(t, q) && IsQuote(q)
    ensures t == [q] + Inner(t) + [q] && Spaces(t) == Spaces(Inner(t))
  {
    SpacesAdd([q], Inner(t));
    SpacesAdd([q] + Inner(t), [q]);
    NoSpaces([q]);
  }

  /** Trimming behind takes white space only. */
  lemma {:induction false} TrimEndRest(t: Text)
    ensures forall k | |TrimEnd(t)| <= k < |t| :: IsWhite(t[k])
  {
    if t != [] && IsWhite(t[|t| - 1]) {
      TrimEndRest(t[..|t| - 1]);
    }
  }

  lemma TrimmedEnds(raw: Text, x: Text)
    requires raw != [] && !IsWhite(raw[0]) && x != [] && !IsWhite(x[|x| - 1])
    ensures Trim(raw + [SPACE] + x) == raw + [SPACE] + x
    ensures Trim(raw) <= raw && Trim(raw) != [] && Trim(raw)[0] == raw[0]
  {
    var long := raw + [SPACE] + x;
    TrimFixes(long);
    TrimEndKeeps(raw);
  }

  lemma {:induction false} TrimEndKeeps(t: Text)
    requires t != [] && !IsWhite(t[0])
    ensures TrimEnd(t) != [] && TrimEnd(t)[0] == t[0]
  {
    if |t| > 1 {
      TrimEndKeeps(t[..|t| - 1]);
    }
  }

  /** A raw text with a space and more behind it reads as another value, and a longer or wider one. */
  lemma RawGrows(raw: Text, x: Text)
    requires raw != [] && !IsWhite(raw[0]) && x != [] && !IsWhite(x[|x| - 1])
    ensures Grown(ScalarValue(raw), ScalarValue(raw + [SPACE] + x))
  {
    hide Trim, Unquote, UnescapeDouble, FoldQuotes, Spaces;
    var long := raw + [SPACE] + x;
    TrimmedEnds(raw, x);
    LongSpaces(raw, x);
    UnquoteKeepsSpaces(raw);
    UnquoteKeepsSpaces(long);
    var t := Trim(raw);
    if WhollyQuoted(long, DQ) {
      QuotedParts(long, DQ);
      UnescapeKeepsSpaces(Inner(long));
      if WhollyQuoted(t, DQ) {
        InnerGrows(raw, t, x, DQ);
        UnescapeGrows(Inner(t), Inner(long)[|t| - 2..]);
      }
    } else if WhollyQuoted(long, SQ) {
      QuotedParts(long, SQ);
      FoldQuotesKeepsSpaces(Inner(long));
      if WhollyQuoted(t, SQ) {
        InnerGrows(raw, t, x, SQ);
        FoldQuotesKeepsSpaces(Inner(t));
        SpacesAdd(Inner(t), Inner(long)[|t| - 2..]);
      }
    } else if |t| >= 2 {
      UnescapeShortens(Inner(t));
      FoldQuotesShortens(Inner(t));
    }
  }

  lemma LongSpaces(raw: Text, x: Text)
    ensures Spaces(raw + [SPACE] + x) == Spaces(raw) + 1 + Spaces(x)
  {
    SpacesAdd(raw + [SPACE], x);
    SpacesAdd(raw, [SPACE]);
    assert [SPACE][1..] == [];
  }

  /** The shorter quoted text stands whole inside the longer one, its closing quote and a space behind it. */
  lemma InnerGrows(raw: Text, t: Text, x: Text, q: Unit)
    requires WhollyQuoted(t, q) && IsQuote(q) && t <= raw && x != []
    ensures var long := raw + [SPACE] + x;
            && |long| >= |t| + 2
            && Inner(long) == Inner(t) + Inner(long)[|t| - 2..]
            && Inner(long)[|t| - 2..] != [] && Inner(long)[|t| - 2..][0] == q
            && Spaces(Inner(long)[|t| - 2..]) > 0
  {
    var long := raw + [SPACE] + x;
    var rest := Inner(long)[|t| - 2..];
    assert rest[0] == long[|t| - 1] == t[|t| - 1];
    var at := |raw| - (|t| - 1);
    assert rest[at] == SPACE;
    SomeSpace(rest, at);
  }

  lemma {:induction false} SomeSpace(s: Text, k: nat)
    requires k < |s| && s[k] == SPACE
    ensures Spaces(s) > 0
  {
    if k > 0 {
      SomeSpace(s[1..], k - 1);
    }
  }
}
