/** Building one generation of a document: its slices, its part ids, its pieces. */
module ContentPublish {
  import opened Common
  import opened ContentText
  import opened ContentSpill
  import opened ContentChain

  // ---------- the core ----------

  predicate Space(u: Unit) {
    9 <= u <= 13 || u == 32 || u == 0xA0 || u == 0x1680 || 0x2000 <= u <= 0x200A || u == 0x2028 || u == 0x2029
    || u == 0x202F || u == 0x205F || u == 0x3000 || u == 0xFEFF
  }

  function DropLeadingNewlines(t: Text): Text {
    if t != [] && t[0] == NL then DropLeadingNewlines(t[1..]) else t
  }

  function TrimEnd(t: Text): Text {
    if t != [] && Space(t[|t| - 1]) then TrimEnd(t[..|t| - 1]) else t
  }

  function DocumentCore(body: Text): Text {
    TrimEnd(DropLeadingNewlines(body))
  }

  // ---------- part ids ----------

  const GENERATION_TAG_LEN := 8
  const PART_SUFFIX_RESERVE := 4
  const GENERATION_SUFFIX_RESERVE := 2 + GENERATION_TAG_LEN
  const HYPHEN: Unit := '-' as int
  const ART: Text := [97, 114, 116, 45]  // "art-"
  const ARTIFACT: Text := [97, 114, 116, 105, 102, 97, 99, 116]  // "artifact"
  const TAG: Text := [45, 103]  // "-g"

  predicate HexUnit(u: Unit) {
    '0' as int <= u <= '9' as int || 'a' as int <= u <= 'f' as int
  }

  /** What is known of the digest: 64 lowercase hex digits. */
  ghost predicate HexDigest(hash: Text -> Text) {
    forall t :: |hash(t)| == 64 && forall u | u in hash(t) :: HexUnit(u)
  }

  function DropTrailingHyphens(t: Text): (r: Text)
    ensures |r| <= |t| && r <= t
  {
    if t != [] && t[|t| - 1] == HYPHEN then DropTrailingHyphens(t[..|t| - 1]) else t
  }

  /** A base too long for its suffixes is cut and closed with a digest of the whole. */
  function FitBase(hash: Text -> Text, base: Text): Text {
    var room := MAX_ID_LENGTH - PART_SUFFIX_RESERVE - GENERATION_SUFFIX_RESERVE;
    if |base| <= room then base
    else DropTrailingHyphens(base[..room - 11]) + [HYPHEN] + Take(hash(base), 10)
  }

  function Take(t: Text, n: nat): (r: Text)
    ensures |r| <= n && r <= t
  {
    if |t| <= n then t else t[..n]
  }

  /** The longest declared prefix the id starts with and goes on after, or empty. */
  function StripPrefix(id: Text, prefixes: seq<Text>): (p: Text)
    ensures p <= id
  {
    if prefixes == [] then []
    else
      var others := StripPrefix(id, prefixes[1..]);
      if prefixes[0] <= id && |id| > |prefixes[0]| && |prefixes[0]| > |others| then prefixes[0] else others
  }

  function FamilyBase(id: Text, kind: Text, prefixes: seq<Text>): Text {
    var prefix := StripPrefix(id, prefixes);
    var stem := id[|prefix|..];
    if prefix != [] && kind != [] && kind != ARTIFACT then ART + kind + [HYPHEN] + stem else ART + stem
  }

  function GenerationBase(hash: Text -> Text, id: Text, kind: Text, digest: Text, prefixes: seq<Text>): Text {
    FitBase(hash, FamilyBase(id, kind, prefixes)) + TAG + Take(digest, GENERATION_TAG_LEN)
  }

  function PieceId(id: Text, base: Text, i: nat): Text {
    if i == 0 then id else base + [HYPHEN] + Units(NatText(i + 1))
  }

  // ---------- the generation ----------

  /** The text of piece `i`: header line, slice, footer line. */
  function Piece(chunks: seq<Text>, id: Text, base: Text, i: nat): Text
    requires i < |chunks|
  {
    (if i > 0 then Header(PieceId(id, base, i - 1)) + [NL] else [])
    + chunks[i]
    + (if i < |chunks| - 1 then [NL] + Footer(PieceId(id, base, i + 1)) else [])
  }

  datatype Refusal = NoId | PartStamps | TooManyPieces

  datatype Publication = Refused(why: Refusal)
                       | Published(chunks: seq<Text>, base: Text, root: NodeFile, parts: seq<NodeFile>)

  function ChunksOf(core: Text): (chunks: seq<Text>)
    ensures |chunks| > 0
  {
    if ByteLength(core) <= DOC_BODY_CAP then [core] else SpillChunks(core, SLICE_CAP)
  }

  function PartNode(chunks: seq<Text>, id: Text, base: Text, digest: Text, rest: map<Text, Text>, i: nat): NodeFile
    requires 0 < i < |chunks|
  {
    NodeFile(Some(PieceId(id, base, i)), None, None, Some(digest), Some(id), {PieceId(id, base, i - 1), id}, rest, false,
             Wrap(Piece(chunks, id, base, i)))
  }

  /** The root's new file: the two stamps and the first piece, under its own line endings. */
  function RootNode(source: NodeFile, chunks: seq<Text>, id: Text, base: Text, digest: Text, bytes: nat): NodeFile
    requires chunks != []
  {
    var body := Wrap(Piece(chunks, id, base, 0));
    source.(digest := Some(digest), bytes := Some(Units(NatText(bytes))), raw := if source.crlf then ToCrLf(body) else body)
  }

  /** `partRest` is the title, summary and dates the publisher gives each part. */
  function DocumentGeneration(hash: Text -> Text, source: NodeFile, kind: Text, prefixes: seq<Text>,
                              partRest: map<Text, Text>): Publication
  {
    if source.id.None? || source.id.value == [] then Refused(NoId)
    else if source.generation.Some? || source.continuationOf.Some? then Refused(PartStamps)
    else
      var id := source.id.value;
      var core := DocumentCore(source.Body());
      var digest := hash(core);
      var chunks := ChunksOf(core);
      var base := GenerationBase(hash, id, kind, digest, prefixes);
      if |chunks| > MAX_PARTS then Refused(TooManyPieces)
      else
        Published(chunks, base, RootNode(source, chunks, id, base, digest, ByteLength(core)),
                  seq(|chunks| - 1, k requires 0 <= k < |chunks| - 1 => PartNode(chunks, id, base, digest, partRest, k + 1)))
  }

  /** The slices of any core concatenate back to it. */
  lemma ChunksOfConcatenate(core: Text)
    ensures Concat(ChunksOf(core)) == core
  {
    if ByteLength(core) <= DOC_BODY_CAP {
      assert Concat([core]) == core + Concat([]);
    } else {
      ChunksConcatenate(core, SLICE_CAP);
    }
  }

  // ---------- sizes ----------

  lemma {:induction false} NatTextIsShort(n: nat)
    requires n <= MAX_PARTS
    ensures |NatText(n)| <= 3
  {
    assert n / 10 < 100 && n / 10 / 10 < 10;
    assert n >= 10 ==> |NatText(n)| == |NatText(n / 10)| + 1;
    assert n / 10 >= 10 ==> |NatText(n / 10)| == |NatText(n / 10 / 10)| + 1;
  }

  /** Every piece id of a generation is at most 200 characters when the root's is. */
  lemma {:induction false} PieceIdFits(hash: Text -> Text, id: Text, kind: Text, digest: Text, prefixes: seq<Text>, i: nat)
    requires |id| <= MAX_ID_LENGTH && i < MAX_PARTS
    ensures |PieceId(id, GenerationBase(hash, id, kind, digest, prefixes), i)| <= MAX_ID_LENGTH
  {
    NatTextIsShort(i + 1);
    var family := FamilyBase(id, kind, prefixes);
    assert |FitBase(hash, family)| <= 186;
  }

  predicate IdUnit(u: Unit) {
    Alphanumeric(u) || u == HYPHEN
  }

  predicate IdUnits(t: Text) {
    forall i | 0 <= i < |t| :: IdUnit(t[i])
  }

  lemma DigitsAreIdUnits(n: nat)
    ensures IdUnits(Units(NatText(n)))
  {
    assert forall i | 0 <= i < |NatText(n)| :: IsDigit(NatText(n)[i]);
  }

  lemma HexIsIdUnits(t: Text)
    requires forall u | u in t :: HexUnit(u)
    ensures IdUnits(t)
  {
    assert forall i | 0 <= i < |t| :: t[i] in t;
  }

  lemma FitBaseIsIdUnits(hash: Text -> Text, base: Text)
    requires HexDigest(hash) && IdUnits(base)
    ensures IdUnits(FitBase(hash, base))
  {
    var d := hash(base);
    HexIsIdUnits(d);
  }

  /** The part ids a well-formed root id gets are well-formed ids themselves. */
  lemma {:induction false} PartIdIsId(hash: Text -> Text, id: Text, kind: Text, digest: Text, prefixes: seq<Text>, i: nat)
    requires HexDigest(hash) && (forall u | u in digest :: HexUnit(u))
    requires IdForm(id) && IdUnits(kind)
    ensures IdForm(PieceId(id, GenerationBase(hash, id, kind, digest, prefixes), i))
  {
    if i > 0 {
      var family := FamilyBase(id, kind, prefixes);
      FamilyIsIdUnits(id, kind, prefixes);
      FitBaseIsIdUnits(hash, family);
      FitBaseStarts(hash, family);
      HexIsIdUnits(digest);
      DigitsAreIdUnits(i + 1);
      hide FamilyBase, FitBase, Units;
      JoinIsId(FitBase(hash, family), Take(digest, GENERATION_TAG_LEN), Units(NatText(i + 1)));
    }
  }

  lemma FamilyIsIdUnits(id: Text, kind: Text, prefixes: seq<Text>)
    requires IdForm(id) && IdUnits(kind)
    ensures var family := FamilyBase(id, kind, prefixes); IdUnits(family) && family != [] && family[0] == 97
  {
  }

  lemma JoinIsId(fit: Text, tag: Text, number: Text)
    requires IdUnits(fit) && IdUnits(tag) && IdUnits(number) && fit != [] && fit[0] == 97
    ensures IdForm(fit + TAG + tag + [HYPHEN] + number)
  {
    var p := fit + TAG + tag + [HYPHEN] + number;
    assert IdUnits(p);
    assert p[0] == fit[0];
  }

  lemma {:induction false} HyphensKeepStart(t: Text)
    requires t != [] && t[0] != HYPHEN
    ensures DropTrailingHyphens(t) != [] && DropTrailingHyphens(t)[0] == t[0]
  {
    if t[|t| - 1] == HYPHEN {
      HyphensKeepStart(t[..|t| - 1]);
    }
  }

  lemma FitBaseStarts(hash: Text -> Text, base: Text)
    requires base != [] && base[0] == 97
    ensures FitBase(hash, base) != [] && FitBase(hash, base)[0] == 97
  {
    var room := MAX_ID_LENGTH - PART_SUFFIX_RESERVE - GENERATION_SUFFIX_RESERVE;
    if |base| > room {
      HyphensKeepStart(base[..room - 11]);
    }
  }

  lemma PartIdsDiffer(base: Text, i: nat, j: nat)
    requires 0 < i && 0 < j && PieceId([], base, i) == PieceId([], base, j)
    ensures i == j
  {
    var a, b := Units(NatText(i + 1)), Units(NatText(j + 1));
    assert (base + [HYPHEN] + a)[|base| + 1..] == a && (base + [HYPHEN] + b)[|base| + 1..] == b;
    UnitsInjective(NatText(i + 1), NatText(j + 1));
    NatTextInjective(i + 1, j + 1);
  }

  lemma UnitsInjective(s: string, t: string)
    requires (forall i | 0 <= i < |s| :: s[i] as int < 0x80) && (forall i | 0 <= i < |t| :: t[i] as int < 0x80)
    requires Units(s) == Units(t)
    ensures s == t
  {
    forall i | 0 <= i < |s|
      ensures s[i] == t[i]
    {
      assert Units(s)[i] == Units(t)[i];
    }
  }

  lemma IdBytes(id: Text)
    requires IdForm(id)
    ensures ByteLength(Header(id)) == |id| + 19 && ByteLength(Footer(id)) == |id| + 17
  {
    forall u | u in Header(id) || u in Footer(id)
      ensures u < 0x80
    {
    }
    AsciiBytes(Header(id));
    AsciiBytes(Footer(id));
  }

  /** Every piece of a generation, header and footer included, fits the body cap. */
  lemma PieceFits(core: Text, id: Text, base: Text, i: nat)
    requires i < |ChunksOf(core)|
    requires forall k | 0 <= k < |ChunksOf(core)| :: IdForm(PieceId(id, base, k)) && |PieceId(id, base, k)| <= MAX_ID_LENGTH
    ensures ByteLength(Piece(ChunksOf(core), id, base, i)) <= DOC_BODY_CAP
  {
    var chunks := ChunksOf(core);
    if |chunks| == 1 {
      assert Piece(chunks, id, base, i) == chunks[0];
    } else {
      ChunksFit(core, SLICE_CAP);
      assert chunks[i] in chunks;
      var head := if i > 0 then Header(PieceId(id, base, i - 1)) + [NL] else [];
      var foot := if i < |chunks| - 1 then [NL] + Footer(PieceId(id, base, i + 1)) else [];
      HeadBytes(id, base, i);
      if i < |chunks| - 1 {
        FootBytes(id, base, i);
      }
      AsciiBytes([]);
      hide Header, Footer, PieceId, ByteLength;
      assert head == [] || head[|head| - 1] == NL;
      ByteLengthConcat(head, chunks[i]);
      ByteLengthConcat(head + chunks[i], foot);
    }
  }

  lemma HeadBytes(id: Text, base: Text, i: nat)
    requires i > 0 ==> IdForm(PieceId(id, base, i - 1)) && |PieceId(id, base, i - 1)| <= MAX_ID_LENGTH
    ensures ByteLength(if i > 0 then Header(PieceId(id, base, i - 1)) + [NL] else []) <= 220
  {
    if i > 0 {
      IdBytes(PieceId(id, base, i - 1));
      AsciiBytes([NL]);
      ByteLengthConcat(Header(PieceId(id, base, i - 1)), [NL]);
    }
  }

  lemma FootBytes(id: Text, base: Text, i: nat)
    requires IdForm(PieceId(id, base, i + 1)) && |PieceId(id, base, i + 1)| <= MAX_ID_LENGTH
    ensures ByteLength([NL] + Footer(PieceId(id, base, i + 1))) <= 218
  {
    IdBytes(PieceId(id, base, i + 1));
    AsciiBytes([NL]);
    ByteLengthConcat([NL], Footer(PieceId(id, base, i + 1)));
  }
}
