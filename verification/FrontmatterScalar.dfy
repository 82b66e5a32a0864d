/** Flat scalars of a node file: how one is read, and the one writer paired with the reader
    (`lib/kernel/frontmatter.js`; escapes of RFC 8259 section 7 and YAML 1.2 section 5.7). */
module FrontmatterScalar {
  import opened Common
  import opened ContentText

  const DQ: Unit := 0x22
  const SQ: Unit := 0x27
  const BACKSLASH: Unit := 0x5C
  const SPACE: Unit := 0x20
  const SMALL_U: Unit := 0x75
  const SMALL_X: Unit := 0x78

  /** Code units are natural numbers. */
  predicate IsText(t: Text) {
    forall k | 0 <= k < |t| :: t[k] >= 0
  }

  /** What `trim` and `\s` take for white space. */
  predicate IsWhite(u: Unit) {
    9 <= u <= 13 || u == 0x20 || u == 0xA0 || u == 0x1680 || 0x2000 <= u <= 0x200A || u == 0x2028 || u == 0x2029
    || u == 0x202F || u == 0x205F || u == 0x3000 || u == 0xFEFF
  }

  function TrimStart(t: Text): (r: Text)
    ensures |r| <= |t| && (r != [] ==> !IsWhite(r[0]))
    ensures t != [] && !IsWhite(t[0]) ==> r == t
  {
    if t != [] && IsWhite(t[0]) then TrimStart(t[1..]) else t
  }

  function TrimEnd(t: Text): (r: Text)
    ensures r <= t && (r != [] ==> !IsWhite(r[|r| - 1]))
    ensures t != [] && !IsWhite(t[|t| - 1]) ==> r == t
  {
    if t != [] && IsWhite(t[|t| - 1]) then TrimEnd(t[..|t| - 1]) else t
  }

  function Trim(t: Text): Text {
    TrimEnd(TrimStart(t))
  }

  lemma {:induction false} TrimFixes(t: Text)
    ensures Trim(t) == t <==> t == [] || (!IsWhite(t[0]) && !IsWhite(t[|t| - 1]))
  {
  }

  // ---------- reading ----------

  predicate IsQuote(u: Unit) {
    u == DQ || u == SQ
  }

  predicate IsHex(u: Unit) {
    0x30 <= u <= 0x39 || 0x41 <= u <= 0x46 || 0x61 <= u <= 0x66
  }

  function HexOf(u: Unit): nat
    requires IsHex(u)
  {
    if u <= 0x39 then u - 0x30 else if u <= 0x46 then u - 0x41 + 10 else u - 0x61 + 10
  }

  /** The single-letter escapes; an unknown one has no value. */
  function Escape(c: Unit): Option<Unit> {
    if c == 0x6E then Some(10)
    else if c == 0x74 then Some(9)
    else if c == 0x72 then Some(13)
    else if c == 0x62 then Some(8)
    else if c == 0x66 then Some(12)
    else if c == 0x30 then Some(0)
    else if c == DQ || c == BACKSLASH || c == 0x2F || c == SPACE then Some(c)
    else None
  }

  /** A double-quoted text with its escapes read; an unknown escape stays as it is. */
  function UnescapeDouble(s: Text): Text
    decreases |s|
  {
    if s == [] then []
    else if s[0] != BACKSLASH then [s[0]] + UnescapeDouble(s[1..])
    else if |s| >= 6 && s[1] == SMALL_U && IsHex(s[2]) && IsHex(s[3]) && IsHex(s[4]) && IsHex(s[5]) then
      [HexOf(s[2]) * 4096 + HexOf(s[3]) * 256 + HexOf(s[4]) * 16 + HexOf(s[5])] + UnescapeDouble(s[6..])
    else if |s| >= 4 && s[1] == SMALL_X && IsHex(s[2]) && IsHex(s[3]) then
      [HexOf(s[2]) * 16 + HexOf(s[3])] + UnescapeDouble(s[4..])
    else if |s| >= 2 then
      (match Escape(s[1])
       case Some(u) => [u]
       case None => [BACKSLASH, s[1]]) + UnescapeDouble(s[2..])
    else s
  }

  /** `replace(/''/g, "'")`. */
  function FoldQuotes(s: Text): Text
    decreases |s|
  {
    if s == [] then []
    else if |s| >= 2 && s[0] == SQ && s[1] == SQ then [SQ] + FoldQuotes(s[2..])
    else [s[0]] + FoldQuotes(s[1..])
  }

  /** A lone quote at either end is stripped. */
  function Unquote(s: Text): Text {
    var t := if s != [] && IsQuote(s[0]) then s[1..] else s;
    if t != [] && IsQuote(t[|t| - 1]) then t[..|t| - 1] else t
  }

  predicate WhollyQuoted(t: Text, q: Unit) {
    |t| >= 2 && t[0] == q && t[|t| - 1] == q
  }

  function ScalarValue(s: Text): Text {
    var t := Trim(s);
    if WhollyQuoted(t, DQ) then UnescapeDouble(t[1..|t| - 1])
    else if WhollyQuoted(t, SQ) then FoldQuotes(t[1..|t| - 1])
    else Unquote(s)
  }

  // ---------- writing ----------

  function HexDigit(d: nat): (u: Unit)
    requires d < 16
    ensures IsHex(u) && HexOf(u) == d
  {
    if d < 10 then 0x30 + d else 0x61 + d - 10
  }

  /** `\u` and four hexadecimal digits. */
  function UnicodeEscape(u: nat): Text
    requires u < 0x10000
  {
    [BACKSLASH, SMALL_U, HexDigit(u / 4096), HexDigit(u / 256 % 16), HexDigit(u / 16 % 16), HexDigit(u % 16)]
  }

  /** One unit of a JSON string, a lone surrogate included. */
  function JsonUnit(u: Unit): Text {
    if u == DQ then [BACKSLASH, DQ]
    else if u == BACKSLASH then [BACKSLASH, BACKSLASH]
    else if u == 8 then [BACKSLASH, 0x62]
    else if u == 9 then [BACKSLASH, 0x74]
    else if u == 10 then [BACKSLASH, 0x6E]
    else if u == 12 then [BACKSLASH, 0x66]
    else if u == 13 then [BACKSLASH, 0x72]
    else if 0 <= u < 0x20 || High(u) || Low(u) then UnicodeEscape(u)
    else [u]
  }

  function JsonBody(t: Text): Text
    decreases |t|
  {
    if t == [] then []
    else if PairAt(t, 0) then [t[0], t[1]] + JsonBody(t[2..])
    else JsonUnit(t[0]) + JsonBody(t[1..])
  }

  /** `JSON.stringify` of a string. */
  function JsonText(t: Text): Text {
    [DQ] + JsonBody(t) + [DQ]
  }

  /** `replace(/\r?\n/g, " ")`. */
  function FoldLines(t: Text): Text
    decreases |t|
  {
    if t == [] then []
    else if |t| >= 2 && t[0] == CR && t[1] == NL then [SPACE] + FoldLines(t[2..])
    else if t[0] == NL then [SPACE] + FoldLines(t[1..])
    else [t[0]] + FoldLines(t[1..])
  }

  function EmitScalar(v: Text, quoteEmpty: bool): Text {
    var flat := FoldLines(v);
    if flat == [] then (if quoteEmpty then [DQ, DQ] else [])
    else if Trim(flat) == flat && ScalarValue(flat) == flat then flat
    else JsonText(flat)
  }

  // ---------- the two agree ----------

  lemma {:induction false} HexReassembles(u: nat)
    requires u < 0x10000
    ensures u / 4096 * 4096 + u / 256 % 16 * 256 + u / 16 % 16 * 16 + u % 16 == u
  {
    var a, b, c := u / 4096, u / 256, u / 16;
    assert b / 16 == a && c / 16 == b;
    assert c == b * 16 + c % 16 && b == a * 16 + b % 16 && u == c * 16 + u % 16;
  }

  lemma {:induction false} UnescapeUnicode(u: nat, rest: Text)
    requires u < 0x10000
    ensures UnescapeDouble(UnicodeEscape(u) + rest) == [u] + UnescapeDouble(rest)
  {
    var s := UnicodeEscape(u) + rest;
    HexReassembles(u);
    assert s[6..] == rest;
  }

  lemma {:induction false} UnescapeLetter(c: Unit, u: Unit, rest: Text)
    requires Escape(c) == Some(u) && c != SMALL_U && c != SMALL_X
    ensures UnescapeDouble([BACKSLASH, c] + rest) == [u] + UnescapeDouble(rest)
  {
    assert ([BACKSLASH, c] + rest)[2..] == rest;
  }

  lemma {:induction false} UnescapePlain(u: Unit, rest: Text)
    requires u != BACKSLASH
    ensures UnescapeDouble([u] + rest) == [u] + UnescapeDouble(rest)
  {
    assert ([u] + rest)[1..] == rest;
  }

  /** Each written unit reads back as itself, whatever follows it. */
  lemma {:induction false} UnescapeUnit(u: Unit, rest: Text)
    requires u >= 0
    ensures UnescapeDouble(JsonUnit(u) + rest) == [u] + UnescapeDouble(rest)
  {
    hide UnescapeDouble, UnicodeEscape;
    if u == DQ { UnescapeLetter(DQ, u, rest); }
    else if u == BACKSLASH { UnescapeLetter(BACKSLASH, u, rest); }
    else if u == 8 { UnescapeLetter(0x62, u, rest); }
    else if u == 9 { UnescapeLetter(0x74, u, rest); }
    else if u == 10 { UnescapeLetter(0x6E, u, rest); }
    else if u == 12 { UnescapeLetter(0x66, u, rest); }
    else if u == 13 { UnescapeLetter(0x72, u, rest); }
    else if u < 0x20 || High(u) || Low(u) { UnescapeUnicode(u, rest); }
    else { UnescapePlain(u, rest); }
  }

  /** The YAML reading inverts the JSON writing. */
  lemma {:induction false} UnescapeJson(t: Text)
    requires IsText(t)
    ensures UnescapeDouble(JsonBody(t)) == t
    decreases |t|
  {
    hide UnescapeDouble, JsonUnit;
    if t == [] {
      NothingToUnescape();
    } else if PairAt(t, 0) {
      UnescapeJson(t[2..]);
      var rest := JsonBody(t[2..]);
      assert JsonBody(t) == [t[0]] + ([t[1]] + rest);
      UnescapePlain(t[0], [t[1]] + rest);
      UnescapePlain(t[1], rest);
      assert t == [t[0]] + ([t[1]] + t[2..]);
    } else {
      UnescapeJson(t[1..]);
      UnescapeUnit(t[0], JsonBody(t[1..]));
      assert t == [t[0]] + t[1..];
    }
  }

  lemma {:induction false} NothingToUnescape()
    ensures UnescapeDouble([]) == []
  {
  }

  lemma {:induction false} JsonReadsBack(t: Text)
    requires IsText(t)
    ensures ScalarValue(JsonText(t)) == t
    ensures Trim(JsonText(t)) == JsonText(t)
  {
    hide JsonBody, UnescapeDouble, Unquote, FoldQuotes;
    var s := JsonText(t);
    TrimFixes(s);
    assert s[1..|s| - 1] == JsonBody(t);
    UnescapeJson(t);
  }

  lemma {:induction false} FoldLinesIsText(t: Text)
    requires IsText(t)
    ensures IsText(FoldLines(t))
    decreases |t|
  {
    if t != [] {
      if |t| >= 2 && t[0] == CR && t[1] == NL {
        FoldLinesIsText(t[2..]);
      } else {
        FoldLinesIsText(t[1..]);
      }
    }
  }

  lemma {:induction false} EmptyReadsBack()
    ensures ScalarValue([]) == [] && ScalarValue([DQ, DQ]) == []
    ensures Trim([]) == [] && Trim([DQ, DQ]) == [DQ, DQ]
  {
    TrimFixes([DQ, DQ]);
  }

  /** Whatever is written reads back as the value with its line breaks folded, and is trimmed. */
  lemma {:induction false} ScalarRoundTrip(v: Text, quoteEmpty: bool)
    requires IsText(v)
    ensures ScalarValue(EmitScalar(v, quoteEmpty)) == FoldLines(v)
    ensures Trim(EmitScalar(v, quoteEmpty)) == EmitScalar(v, quoteEmpty)
    ensures EmitScalar(v, quoteEmpty) == [] <==> FoldLines(v) == [] && !quoteEmpty
  {
    hide ScalarValue, Trim, FoldLines;
    FoldLinesIsText(v);
    EmptyReadsBack();
    JsonReadsBack(FoldLines(v));
  }

  // ---------- one line stays one line ----------

  /** What `.` does not match, and what ends a line. */
  predicate IsLineEnd(u: Unit) {
    u == NL || u == CR || u == 0x2028 || u == 0x2029
  }

  predicate OneLine(t: Text) {
    forall k | 0 <= k < |t| :: !IsLineEnd(t[k])
  }

  lemma {:induction false} FoldLinesFixes(t: Text)
    requires OneLine(t)
    ensures FoldLines(t) == t
    decreases |t|
  {
    if t != [] {
      FoldLinesFixes(t[1..]);
      assert t == [t[0]] + t[1..];
    }
  }

  lemma {:induction false} JsonIsOneLine(t: Text)
    requires OneLine(t)
    ensures OneLine(JsonBody(t))
    decreases |t|
  {
    if t != [] {
      if PairAt(t, 0) {
        JsonIsOneLine(t[2..]);
      } else {
        JsonIsOneLine(t[1..]);
        assert OneLine(JsonUnit(t[0]));
      }
    }
  }

  lemma {:induction false} EmittedIsOneLine(v: Text, quoteEmpty: bool)
    requires OneLine(v)
    ensures OneLine(EmitScalar(v, quoteEmpty))
  {
    hide ScalarValue, Trim, FoldLines, JsonBody;
    FoldLinesFixes(v);
    JsonIsOneLine(v);
  }
}
