/** Documents at which the conditions of the document results bite. */
module ContentWitness {
  import opened Common
  import opened ContentText
  import opened ContentSpill
  import opened ContentChain
  import opened ContentPublish
  import opened ContentRoundTrip
  import opened ContentGuard

  /** An unmanaged node file `r` with LF line endings. */
  function Plain(raw: Text): NodeFile {
    NodeFile(Some([114]), None, None, None, None, {}, map[], false, raw)
  }

  function PublishedPlain(hash: Text -> Text, raw: Text): Publication {
    DocumentGeneration(hash, Plain(raw), [], [], map[])
  }

  function PlainGeneration(hash: Text -> Text, raw: Text): Generation {
    GenerationOf(hash, Plain(raw), [], [])
  }

  /** What a store must hold for the publication to be read from it, and nothing with its stamps beside. */
  ghost predicate Holds(hash: Text -> Text, raw: Text, store: map<Text, NodeFile>) {
    && PublishedPlain(hash, raw).Published?
    && PartsStored(PlainGeneration(hash, raw), PublishedPlain(hash, raw).parts, store)
    && NoStrays(hash, PlainGeneration(hash, raw), store) && NoCollision(hash, PlainGeneration(hash, raw).core)
  }

  predicate ReadsComplete(hash: Text -> Text, raw: Text, store: map<Text, NodeFile>, pinned: bool) {
    PublishedPlain(hash, raw).Published? && ReadChain(hash, PublishedPlain(hash, raw).root, store, pinned).complete
  }

  lemma PlainCore(hash: Text -> Text, raw: Text, core: Text)
    requires ToLf(raw) == core && core != [] && core[0] != NL && !Space(core[|core| - 1])
    ensures PlainGeneration(hash, raw).core == core && PlainGeneration(hash, raw).id == [114]
    ensures !PlainGeneration(hash, raw).crlf
  {
  }

  /** Part ids are longer than the root's. */
  lemma PartIdsAreLonger(hash: Text -> Text, raw: Text, i: nat)
    requires 0 < i
    ensures PlainGeneration(hash, raw).Id(i) != [114]
  {
    hide FitBase, DocumentCore, ToLf, Take;
    var g := PlainGeneration(hash, raw);
    assert |g.Id(i)| >= |g.base| + 1 >= |TAG| + 1;
  }

  lemma PlainIsPublished(hash: Text -> Text, raw: Text)
    requires |PlainGeneration(hash, raw).Chunks()| <= MAX_PARTS
    ensures PublishedPlain(hash, raw).Published?
  {
    hide ChunksOf, GenerationBase, RootNode, PartNode, DocumentCore, ToLf;
  }

  /** The reading of a plain document is complete exactly when its generation is publishable. */
  lemma {:induction false} PlainReads(hash: Text -> Text, raw: Text, store: map<Text, NodeFile>, pinned: bool)
    requires HexDigest(hash) && Holds(hash, raw, store)
    ensures ReadsComplete(hash, raw, store, pinned) <==> Publishable(PlainGeneration(hash, raw))
  {
    hide GenerationOf, DocumentGeneration, ReadChain, Publishable, HexDigest, NoStrays, NoCollision, PartsStored, PieceId;
    var g := PlainGeneration(hash, raw);
    PlainId(hash, raw);
    forall i | 0 < i < g.Count()
      ensures g.Id(i) != g.id
    {
      PartIdsAreLonger(hash, raw, i);
    }
    PublishThenRead(hash, Plain(raw), [], [], map[], store, pinned);
  }

  lemma PlainId(hash: Text -> Text, raw: Text)
    ensures IdForm(IdOf(Plain(raw))) && PlainGeneration(hash, raw).id == [114]
  {
  }

  // ---------- documents that do not read back ----------

  /** The one line `_(continues in a)_`. */
  const FOOTER_LINE: Text := Footer([97])

  /** `a`, two carriage returns, a line feed, `b`: reading drops one carriage return, and the second
      reading another. */
  const TWO_RETURNS: Text := [97, CR, CR, NL, 98]

  /** `a`, CR LF, `b`. */
  const ONE_RETURN: Text := [97, CR, NL, 98]

  lemma FooterLineText()
    ensures ToLf(FOOTER_LINE) == FOOTER_LINE && ByteLength(FOOTER_LINE) <= DOC_BODY_CAP
    ensures FOOTER_LINE[0] == 95 && |FOOTER_LINE| == 18 && FOOTER_LINE[17] == 95
  {
    IdBytes([97]);
    IdsHaveNoBreaks([97]);
    NoCrFixed(FOOTER_LINE);
  }

  lemma TwoReturnsText()
    ensures ToLf(TWO_RETURNS) == [97, CR, NL, 98] && ByteLength([97, CR, NL, 98]) == 4
  {
    NoCrFixed([98]);
    ToLfPair([98]);
    ToLfStep(CR, [CR, NL] + [98]);
    ToLfStep(97, [CR] + ([CR, NL] + [98]));
    assert TWO_RETURNS == [97] + ([CR] + ([CR, NL] + [98]));
    AsciiBytes([97, CR, NL, 98]);
  }

  lemma OneReturnText()
    ensures ToLf(ONE_RETURN) == [97, NL, 98] && ByteLength([97, NL, 98]) == 3
  {
    NoCrFixed([98]);
    ToLfPair([98]);
    ToLfStep(97, [CR, NL] + [98]);
    assert ONE_RETURN == [97] + ([CR, NL] + [98]);
    AsciiBytes([97, NL, 98]);
  }

  /** Two documents the publisher accepts and no reader gets back complete, from any store that holds the
      publication; a CR LF as such is harmless, since reading has made it a line feed before publication. */
  lemma {:induction false} SomeDocumentsDoNotReadBack(hash: Text -> Text)
    requires HexDigest(hash)
    ensures PublishedPlain(hash, FOOTER_LINE).Published? && PublishedPlain(hash, TWO_RETURNS).Published?
    ensures PublishedPlain(hash, ONE_RETURN).Published?
    ensures forall store, pinned | Holds(hash, FOOTER_LINE, store) :: !ReadsComplete(hash, FOOTER_LINE, store, pinned)
    ensures forall store, pinned | Holds(hash, TWO_RETURNS, store) :: !ReadsComplete(hash, TWO_RETURNS, store, pinned)
    ensures forall store, pinned | Holds(hash, ONE_RETURN, store) :: ReadsComplete(hash, ONE_RETURN, store, pinned)
  {
    hide *;
    FooterLinePublishes(hash);
    TwoReturnsPublishes(hash);
    OneReturnPublishes(hash);
    forall store, pinned | Holds(hash, FOOTER_LINE, store)
      ensures !ReadsComplete(hash, FOOTER_LINE, store, pinned)
    {
      PlainReads(hash, FOOTER_LINE, store, pinned);
    }
    forall store, pinned | Holds(hash, TWO_RETURNS, store)
      ensures !ReadsComplete(hash, TWO_RETURNS, store, pinned)
    {
      PlainReads(hash, TWO_RETURNS, store, pinned);
    }
    forall store, pinned | Holds(hash, ONE_RETURN, store)
      ensures ReadsComplete(hash, ONE_RETURN, store, pinned)
    {
      PlainReads(hash, ONE_RETURN, store, pinned);
    }
  }

  lemma OnePiecePublishes(hash: Text -> Text, raw: Text)
    requires ByteLength(PlainGeneration(hash, raw).core) <= DOC_BODY_CAP
    ensures PublishedPlain(hash, raw).Published?
  {
    hide GenerationOf, ByteLength, PublishedPlain;
    PlainIsPublished(hash, raw);
  }

  lemma FooterLinePublishes(hash: Text -> Text)
    ensures PublishedPlain(hash, FOOTER_LINE).Published? && !Publishable(PlainGeneration(hash, FOOTER_LINE))
  {
    hide PlainGeneration, PublishedPlain, Publishable, ToLf, ByteLength;
    FooterLineText();
    PlainCore(hash, FOOTER_LINE, FOOTER_LINE);
    OnePiecePublishes(hash, FOOTER_LINE);
    var g := PlainGeneration(hash, FOOTER_LINE);
    FooterCoreFails([97], g.id, g.base);
    assert g == Generation(FOOTER_LINE, g.id, g.base, false);
  }

  lemma TwoReturnsPublishes(hash: Text -> Text)
    ensures PublishedPlain(hash, TWO_RETURNS).Published? && !Publishable(PlainGeneration(hash, TWO_RETURNS))
  {
    hide PlainGeneration, PublishedPlain, Publishable, ToLf, ByteLength;
    var core: Text := [97, CR, NL, 98];
    TwoReturnsText();
    PlainCore(hash, TWO_RETURNS, core);
    OnePiecePublishes(hash, TWO_RETURNS);
    var g := PlainGeneration(hash, TWO_RETURNS);
    assert core[1] == CR && core[2] == NL;
    CrLfCoreFails(core, g.id, g.base);
    assert g == Generation(core, g.id, g.base, false);
  }

  lemma OneReturnPublishes(hash: Text -> Text)
    ensures PublishedPlain(hash, ONE_RETURN).Published? && Publishable(PlainGeneration(hash, ONE_RETURN))
  {
    hide PlainGeneration, PublishedPlain, Publishable, ToLf, ByteLength;
    OneReturnText();
    PlainCore(hash, ONE_RETURN, [97, NL, 98]);
    OnePiecePublishes(hash, ONE_RETURN);
    PlainCoreIsPublishable(PlainGeneration(hash, ONE_RETURN));
  }

  // ---------- a generation an admitted write takes from its readers ----------

  /** `n` letters `a`. */
  function Letters(n: nat): (t: Text)
    ensures |t| == n && forall u | u in t :: u == 97
  {
    seq(n, i => 97)
  }

  /** One more than fits a piece. */
  const LONG: Text := Letters(8193)

  lemma {:induction false} LettersFit(n: nat, cap: nat)
    ensures Fit(Letters(n), cap) == if n <= cap then n else cap
    decreases n
  {
    var t := Letters(n);
    if n > 0 {
      assert t[0] in t;
      assert t[1..] == Letters(n - 1);
      if cap > 0 {
        LettersFit(n - 1, cap - 1);
      }
    }
  }

  lemma LettersCut(n: nat, cap: nat)
    requires cap <= n
    ensures Cut(Letters(n), cap) == cap && Letters(n)[cap..] == Letters(n - cap)
  {
    var t := Letters(n);
    LettersFit(n, cap);
    forall i | 0 <= i < |t[..cap]|
      ensures t[..cap][i] != NL
    {
      assert t[..cap][i] == t[i] && t[i] in t;
    }
  }

  /** It takes exactly two pieces. */
  lemma LongIsTwoPieces()
    ensures |ChunksOf(LONG)| == 2
  {
    hide Cut, Letters;
    AsciiBytes(LONG);
    LettersCut(8193, SLICE_CAP);
    var rest := LONG[Cut(LONG, SLICE_CAP)..];
    AsciiBytes(Letters(8193 - SLICE_CAP));
    assert rest == Letters(8193 - SLICE_CAP);
    assert SpillChunks(rest, SLICE_CAP) == [rest];
  }

  lemma LongPublishes(hash: Text -> Text)
    ensures PublishedPlain(hash, LONG).Published? && Publishable(PlainGeneration(hash, LONG))
    ensures PlainGeneration(hash, LONG).core == LONG && PlainGeneration(hash, LONG).Count() == 2
  {
    hide PlainGeneration, PublishedPlain, Publishable, ToLf, ChunksOf, Letters;
    LettersAreLf(8193);
    LettersClose(8193);
    PlainCore(hash, LONG, LONG);
    LongIsTwoPieces();
    PlainIsPublished(hash, LONG);
    PlainCoreIsPublishable(PlainGeneration(hash, LONG));
  }

  lemma LettersAreLf(n: nat)
    ensures ToLf(Letters(n)) == Letters(n) && CR !in Letters(n)
  {
    NoCrFixed(Letters(n));
  }

  lemma LettersClose(n: nat)
    requires n >= 2
    ensures Letters(n)[n - 2..] != CLOSE && Letters(n)[0] == 97 && Letters(n)[n - 1] == 97
  {
    assert Letters(n)[n - 2..][0] == 97;
  }

  /** The store of a two-piece document: its root and its one part. */
  function LongStore(hash: Text -> Text): map<Text, NodeFile>
    requires PublishedPlain(hash, LONG).Published? && |PublishedPlain(hash, LONG).parts| == 1
  {
    map[[114] := PublishedPlain(hash, LONG).root,
        PlainGeneration(hash, LONG).Id(1) := PublishedPlain(hash, LONG).parts[0]]
  }

  lemma LongIsPublished(hash: Text -> Text)
    ensures PublishedPlain(hash, LONG).Published? && |PublishedPlain(hash, LONG).parts| == 1
  {
    hide PlainGeneration, ChunksOf;
    LongPublishes(hash);
    PlainParts(hash, LONG);
  }

  lemma PlainParts(hash: Text -> Text, raw: Text)
    requires PublishedPlain(hash, raw).Published?
    ensures |PublishedPlain(hash, raw).parts| == PlainGeneration(hash, raw).Count() - 1
    ensures IdOf(PublishedPlain(hash, raw).root) == [114] && PublishedPlain(hash, raw).root.continuationOf.None?
    ensures Managed(PublishedPlain(hash, raw).root)
  {
    hide ChunksOf, PartNode, ToLf, GenerationBase;
  }

  lemma LongStoreKeys(hash: Text -> Text)
    requires PublishedPlain(hash, LONG).Published? && |PublishedPlain(hash, LONG).parts| == 1
    ensures var store, id := LongStore(hash), PlainGeneration(hash, LONG).Id(1);
            && store.Keys == {[114], id} && id in store && store[id] == PublishedPlain(hash, LONG).parts[0]
            && [114] in store && store[[114]] == PublishedPlain(hash, LONG).root
  {
    hide PublishedPlain, PlainGeneration, Letters;
    PartIdsAreLonger(hash, LONG, 1);
  }

  /** That store holds the publication and nothing beside it. */
  lemma LongHolds(hash: Text -> Text)
    requires NoCollision(hash, LONG)
    requires PublishedPlain(hash, LONG).Published? && |PublishedPlain(hash, LONG).parts| == 1
    ensures Holds(hash, LONG, LongStore(hash))
    ensures [114] in LongStore(hash) && LongStore(hash)[[114]] == PublishedPlain(hash, LONG).root
  {
    hide *;
    LongStoreKeys(hash);
    LongPublishes(hash);
    PlainId(hash, LONG);
    PlainParts(hash, LONG);
    TwoPartsStored(PlainGeneration(hash, LONG), PublishedPlain(hash, LONG).parts, LongStore(hash));
    RootIsNoStray(hash, PlainGeneration(hash, LONG), LongStore(hash));
    HoldsFrom(hash, LONG, LongStore(hash));
  }

  lemma TwoPartsStored(g: Generation, parts: seq<NodeFile>, store: map<Text, NodeFile>)
    requires g.Count() == 2 && |parts| == 1 && g.Id(1) in store && store[g.Id(1)] == parts[0]
    ensures PartsStored(g, parts, store)
  {
    hide Generation.Count, Generation.Id;
  }

  lemma RootIsNoStray(hash: Text -> Text, g: Generation, store: map<Text, NodeFile>)
    requires g.Count() == 2 && g.id == [114] && store.Keys == {[114], g.Id(1)}
    requires store[[114]].continuationOf.None?
    ensures NoStrays(hash, g, store)
  {
    hide Generation.Count, Generation.Id;
    var ids := g.Ids(g.Count());
    assert ids[1] == g.Id(1);
  }

  lemma HoldsFrom(hash: Text -> Text, raw: Text, store: map<Text, NodeFile>)
    requires PublishedPlain(hash, raw).Published?
    requires PartsStored(PlainGeneration(hash, raw), PublishedPlain(hash, raw).parts, store)
    requires NoStrays(hash, PlainGeneration(hash, raw), store) && NoCollision(hash, PlainGeneration(hash, raw).core)
    ensures Holds(hash, raw, store)
  {
    hide PublishedPlain, PlainGeneration, PartsStored, NoStrays, NoCollision;
  }

  /** A read pinned to a published, stored generation of two pieces is complete; one admitted write of an
      empty generation stamp to its root, and it is not. */
  lemma {:induction false} EmptyStampLosesTheRead(hash: Text -> Text)
    requires HexDigest(hash) && NoCollision(hash, LONG)
    ensures PublishedPlain(hash, LONG).Published? && |PublishedPlain(hash, LONG).parts| == 1
    ensures var store, key := LongStore(hash), [114];
      var w := Write(key, PublishedPlain(hash, LONG).root.(generation := Some([])));
      && Holds(hash, LONG, store)
      && key in store && SlipsStamp(store[key], key, w) && key in Apply(store, w)
      && ReadChain(hash, store[key], store, true).complete
      && !ReadChain(hash, Apply(store, w)[key], Apply(store, w), true).complete
  {
    hide *;
    LongIsPublished(hash);
    LongHolds(hash);
    LongPublishes(hash);
    PlainReads(hash, LONG, LongStore(hash), true);
    PlainParts(hash, LONG);
    LongRootGoesOn(hash);
    CompleteRoot(hash, LONG, LongStore(hash));
    EmptyGenerationStampIsAdmitted(hash, LongStore(hash), [114]);
  }

  lemma CompleteRoot(hash: Text -> Text, raw: Text, store: map<Text, NodeFile>)
    requires ReadsComplete(hash, raw, store, true)
    ensures ReadChain(hash, PublishedPlain(hash, raw).root, store, true).complete
  {
    hide ReadChain, PublishedPlain;
  }

  lemma {:induction false} PlainIsStored(hash: Text -> Text, raw: Text, store: map<Text, NodeFile>)
    requires HexDigest(hash) && Holds(hash, raw, store)
    ensures PlainGeneration(hash, raw).WellNamed()
    ensures Stored(hash, PlainGeneration(hash, raw), PublishedPlain(hash, raw).root, store)
  {
    hide GenerationOf, DocumentGeneration, HexDigest, NoStrays, NoCollision, PartsStored, PieceId, Stored;
    var g := PlainGeneration(hash, raw);
    PlainId(hash, raw);
    forall i | 0 < i < g.Count()
      ensures g.Id(i) != g.id
    {
      PartIdsAreLonger(hash, raw, i);
    }
    PublicationIsNamed(hash, Plain(raw), [], []);
    PublicationIsStored(hash, Plain(raw), [], [], map[], store);
  }

  /** Its root closes with a footer. */
  lemma {:induction false} LongRootGoesOn(hash: Text -> Text)
    requires HexDigest(hash) && NoCollision(hash, LONG)
    ensures PublishedPlain(hash, LONG).Published?
    ensures NextOf(PublishedPlain(hash, LONG).root.Body()).Some?
  {
    hide *;
    LongIsPublished(hash);
    LongHolds(hash);
    LongPublishes(hash);
    var g, root := PlainGeneration(hash, LONG), PublishedPlain(hash, LONG).root;
    PlainIsStored(hash, LONG, LongStore(hash));
    StartsAtRoot(hash, g, root, LongStore(hash));
    FooterReads(g, 0);
  }
}
