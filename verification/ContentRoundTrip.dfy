/** Publishing a generation and reading its chain back. */
module ContentRoundTrip {
  import opened Common
  import opened ContentText
  import opened ContentSpill
  import opened ContentChain
  import opened ContentPublish

  // ---------- what line-ending normalization keeps of a slice ----------

  lemma {:induction false} ToLfKeepsFinalNewline(c: Text)
    ensures ToLf(c + [NL]) != [] && ToLf(c + [NL])[|ToLf(c + [NL])| - 1] == NL
    decreases |c|
  {
    if c != [] {
      var t := c + [NL];
      if |c| >= 2 && c[0] == CR && c[1] == NL {
        assert t == [CR, NL] + (c[2..] + [NL]);
        ToLfPair(c[2..] + [NL]);
        ToLfKeepsFinalNewline(c[2..]);
      } else if t == [CR, NL] {
        ToLfPair([]);
        assert t == [CR, NL] + [];
      } else {
        assert t == [c[0]] + (c[1..] + [NL]);
        ToLfStep(c[0], c[1..] + [NL]);
        ToLfKeepsFinalNewline(c[1..]);
      }
    }
  }

  /** A slice as it is read back from an LF file, where a newline follows it. */
  function Kept(c: Text): Text {
    var t := ToLf(c + [NL]);
    if t == [] then [] else t[..|t| - 1]
  }

  /** A slice survives an LF file exactly when it holds no CR LF and ends in no CR. */
  predicate Clean(c: Text) {
    !HasCrLf(c + [NL])
  }

  lemma KeptFixes(c: Text)
    ensures Clean(c) ==> Kept(c) == c
    ensures !Clean(c) ==> |Kept(c)| < |c|
    ensures ToLf(c + [NL]) == Kept(c) + [NL]
  {
    ToLfFixes(c + [NL]);
    ToLfKeepsFinalNewline(c);
  }

  lemma NoCrFixed(t: Text)
    requires CR !in t
    ensures ToLf(t) == t
  {
    ToLfFixes(t);
  }

  lemma NoCrClean(c: Text)
    requires CR !in c
    ensures Clean(c)
  {
    var t := c + [NL];
    assert CR !in t;
  }

  /** What follows the newline that ends the slice of a wrapped piece. */
  function Tail(foot: Text): Text {
    if foot == [] then [] else foot[1..] + [NL]
  }

  lemma WrapParts(head: Text, c: Text, foot: Text)
    requires foot == [] || foot[0] == NL
    ensures Wrap(head + c + foot) == ([NL] + head) + ((c + [NL]) + Tail(foot))
  {
  }

  lemma ReadParts(front: Text, c: Text, tail: Text)
    requires CR !in front && CR !in tail
    ensures ToLf(front + ((c + [NL]) + tail)) == front + ((Kept(c) + [NL]) + tail)
  {
    KeptFixes(c);
    NoCrFixed(front);
    NoCrFixed(tail);
    ToLfConcat(c + [NL], tail);
    ToLfConcat(front, (c + [NL]) + tail);
  }

  /** Reading a wrapped piece: only its slice can change. */
  lemma ReadWrapped(head: Text, c: Text, foot: Text)
    requires CR !in head && CR !in foot && (foot == [] || foot[0] == NL)
    ensures ToLf(Wrap(head + c + foot)) == Wrap(head + Kept(c) + foot)
  {
    WrapParts(head, c, foot);
    WrapParts(head, Kept(c), foot);
    ReadParts([NL] + head, c, Tail(foot));
  }

  // ---------- the pieces of one generation as stored ----------

  /** A generation: what was published from `core` under `id`. */
  datatype Generation = Generation(core: Text, id: Text, base: Text, crlf: bool) {
    function Chunks(): (chunks: seq<Text>)
      ensures |chunks| > 0
    {
      ChunksOf(core)
    }

    function Count(): (n: nat)
      ensures n > 0
    {
      |Chunks()|
    }

    function Id(i: nat): Text {
      PieceId(id, base, i)
    }

    function Ids(n: nat): (ids: seq<Text>)
      ensures |ids| == n
    {
      seq(n, i requires 0 <= i < n => Id(i))
    }

    function Head(i: nat): Text {
      if i > 0 then Header(Id(i - 1)) + [NL] else []
    }

    function Foot(i: nat): Text {
      if i + 1 < Count() then [NL] + Footer(Id(i + 1)) else []
    }

    /** The slice as read back: the root of a CRLF file keeps every byte. */
    function Got(i: nat): Text
      requires i < Count()
    {
      if i == 0 && crlf then Chunks()[i] else Kept(Chunks()[i])
    }

    /** The stored body of piece `i`, as every reader sees it. */
    function BodyAt(i: nat): Text
      requires i < Count()
    {
      Wrap(Head(i) + Got(i) + Foot(i))
    }

    function Bodies(n: nat): (bodies: seq<Text>)
      requires n <= Count()
      ensures |bodies| == n
    {
      seq(n, i requires 0 <= i < n => BodyAt(i))
    }

    /** The piece ids are well-formed and pairwise different. */
    ghost predicate WellNamed() {
      && (forall i | 0 <= i < Count() :: IdForm(Id(i)))
      && (forall i, j | 0 <= i < j < Count() :: Id(i) != Id(j))
    }
  }

  lemma IdsHaveNoBreaks(id: Text)
    requires IdForm(id)
    ensures NL !in Header(id) && CR !in Header(id) && NL !in Footer(id) && CR !in Footer(id)
  {
  }

  lemma StripWrap(p: Text)
    ensures Strip(Wrap(p)) == p
  {
  }

  /** A line is a footer for exactly the id it was printed for. */
  lemma FooterRoundTrip(id: Text)
    requires IdForm(id)
    ensures FooterTarget(Footer(id)) == Some(id)
  {
    var line := Footer(id);
    assert line[|FOOTER_OPEN|..|line| - |CLOSE|] == id;
    assert line[|line| - |CLOSE|..] == CLOSE;
  }

  lemma PieceAsStored(g: Generation, i: nat)
    requires i < g.Count() && g.WellNamed()
    ensures var body := Wrap(Piece(g.Chunks(), g.id, g.base, i));
      ToLf(if i == 0 && g.crlf then ToCrLf(body) else body) == g.BodyAt(i)
  {
    var c := g.Chunks()[i];
    assert Piece(g.Chunks(), g.id, g.base, i) == g.Head(i) + c + g.Foot(i);
    if i == 0 && g.crlf {
      CrLfRoundTrip(Wrap(Piece(g.Chunks(), g.id, g.base, i)));
    } else {
      if i > 0 {
        IdsHaveNoBreaks(g.Id(i - 1));
      }
      if i + 1 < g.Count() {
        IdsHaveNoBreaks(g.Id(i + 1));
      }
      ReadWrapped(g.Head(i), c, g.Foot(i));
    }
  }

  /** Every piece but the first opens with the header naming the one before. */
  lemma {:induction false} HeaderReads(g: Generation, i: nat)
    requires 0 < i < g.Count() && g.WellNamed()
    ensures FirstLine(Strip(g.BodyAt(i))) == Header(g.Id(i - 1))
    ensures FirstNewline(Strip(g.BodyAt(i))) == |Header(g.Id(i - 1))|
  {
    hide Header, Footer, PieceId, Kept, ChunksOf, Strip, Wrap, FirstLine, IdForm;
    var h, u := Header(g.Id(i - 1)), g.Got(i) + g.Foot(i);
    IdsHaveNoBreaks(g.Id(i - 1));
    StripWrap(g.Head(i) + g.Got(i) + g.Foot(i));
    FirstLineBefore(h, u);
    Regroup(g.Head(i), g.Got(i), g.Foot(i));
    assert g.Head(i) == h + [NL];
  }

  /** Every piece but the last closes with the footer naming the next one. */
  lemma {:induction false} FooterReads(g: Generation, i: nat)
    requires i + 1 < g.Count() && g.WellNamed()
    ensures NextOf(g.BodyAt(i)) == Some(g.Id(i + 1))
  {
    hide Wrap, Header, Kept, PieceId, ChunksOf, FooterTarget, NextOf, IdForm;
    var f := Footer(g.Id(i + 1));
    IdsHaveNoBreaks(g.Id(i + 1));
    FooterRoundTrip(g.Id(i + 1));
    FooterAtEnd(g.Head(i) + g.Got(i), f);
    assert g.Foot(i) == [NL] + f;
  }

  lemma FooterAtEnd(u: Text, f: Text)
    requires NL !in f
    ensures NextOf(Wrap(u + ([NL] + f))) == FooterTarget(f)
  {
    hide FooterTarget;
    StripWrap(u + ([NL] + f));
    Regroup(u, [NL], f);
    LastLineAfter(u, f);
    NoNewline(f);
  }

  lemma NoNewline(t: Text)
    requires NL !in t
    ensures LastNewline(t) == -1 && LastLine(t) == t
  {
    assert LastNewline(t) == -1;
  }

  /** The last line of the last piece is the last line of the last slice. */
  lemma {:induction false} FinalLineReads(g: Generation)
    requires g.WellNamed()
    ensures NextOf(g.BodyAt(g.Count() - 1)) == Dangling(g)
  {
    var i := g.Count() - 1;
    var got := g.Got(i);
    StripWrap(g.Head(i) + got + g.Foot(i));
    if i > 0 {
      var h := Header(g.Id(i - 1));
      assert g.Head(i) + got + g.Foot(i) == h + [NL] + got;
      LastLineAfter(h, got);
    } else {
      assert g.Head(i) + got + g.Foot(i) == got;
    }
  }

  /** Taking header and footer lines off a wrapped piece gives back its slice. */
  lemma SliceOf(h: Text, got: Text, f: Text, first: bool, last: bool)
    requires NL !in h && NL !in f
    ensures Slice(Wrap((if first then [] else h + [NL]) + got + (if last then [] else [NL] + f)), first, last) == got
  {
    var head := if first then [] else h + [NL];
    var foot := if last then [] else [NL] + f;
    var u := got + foot;
    StripWrap(head + got + foot);
    Regroup(head, got, foot);
    if !first {
      FirstLineBefore(h, u);
      DropHead(head, u);
    } else {
      assert head + u == u;
    }
    if !last {
      DropFoot(got, f);
    } else {
      assert u == got;
    }
  }

  lemma {:induction false} SliceReads(g: Generation, i: nat)
    requires i < g.Count() && g.WellNamed()
    ensures Slice(g.BodyAt(i), i == 0, i == g.Count() - 1) == g.Got(i)
  {
    hide Slice, Header, Footer, Kept, PieceId, Wrap, Strip, ChunksOf, IdForm;
    var first, last := i == 0, i == g.Count() - 1;
    var h := if first then [] else Header(g.Id(i - 1));
    var f := if last then [] else Footer(g.Id(i + 1));
    if !first {
      IdsHaveNoBreaks(g.Id(i - 1));
    }
    if !last {
      IdsHaveNoBreaks(g.Id(i + 1));
    }
    SliceOf(h, g.Got(i), f, first, last);
    assert g.Head(i) == if first then [] else h + [NL];
    assert g.Foot(i) == if last then [] else [NL] + f;
  }

  lemma DropHead(head: Text, u: Text)
    ensures (head + u)[|head|..] == u
  {
  }

  lemma DropFoot(got: Text, f: Text)
    requires NL !in f
    ensures LastNewline(got + ([NL] + f)) == |got| && (got + ([NL] + f))[..|got|] == got
  {
    Regroup(got, [NL], f);
    LastLineAfter(got, f);
    assert LastNewline(f) == -1;
  }

  lemma {:induction false} SlicesRead(g: Generation)
    requires g.WellNamed()
    ensures Slices(g.Bodies(g.Count())) == GotAll(g)
  {
    var bodies := g.Bodies(g.Count());
    forall i | 0 <= i < g.Count()
      ensures Slices(bodies)[i] == g.Got(i)
    {
      SliceReads(g, i);
    }
  }

  // ---------- the walk over a published generation ----------

  /** `root` and `store` hold generation `g` as the publisher wrote it. */
  ghost predicate Stored(hash: Text -> Text, g: Generation, root: NodeFile, store: map<Text, NodeFile>) {
    && root.id == Some(g.id) && root.generation.None?
    && root.digest == Some(hash(g.core)) && root.bytes == Some(Units(NatText(ByteLength(g.core))))
    && root.Body() == g.BodyAt(0)
    && forall i | 0 < i < g.Count() :: g.Id(i) in store && StampedPart(hash, g, store[g.Id(i)], i)
  }

  lemma FreshId(g: Generation, k: nat)
    requires g.WellNamed() && k < g.Count()
    ensures g.Id(k) !in g.Ids(k)
  {
  }

  lemma FollowsStamped(root: NodeFile, store: map<Text, NodeFile>, ids: seq<Text>, next: Text)
    requires ids != [] && next !in ids && next in store
    requires store[next].generation == root.digest && store[next].continuationOf == Some(IdOf(root))
    requires FirstLine(Strip(store[next].Body())) == Header(ids[|ids| - 1])
    ensures Follows(root, store, ids, next)
  {
  }

  lemma LastId(g: Generation, k: nat)
    requires 0 < k
    ensures g.Ids(k) != [] && g.Ids(k)[|g.Ids(k)| - 1] == g.Id(k - 1)
  {
  }

  lemma {:induction false} StampedAt(hash: Text -> Text, g: Generation, root: NodeFile, store: map<Text, NodeFile>, k: nat)
    requires Stored(hash, g, root, store) && 0 < k < g.Count()
    ensures g.Id(k) in store && store[g.Id(k)].generation == root.digest && store[g.Id(k)].continuationOf == Some(IdOf(root))
  {
    assert StampedPart(hash, g, store[g.Id(k)], k);
  }

  lemma StepFollows(hash: Text -> Text, g: Generation, root: NodeFile, store: map<Text, NodeFile>, k: nat)
    requires g.WellNamed() && Stored(hash, g, root, store) && 0 < k < g.Count()
    ensures Follows(root, store, g.Ids(k), g.Id(k))
  {
    hide *;
    HeaderReads(g, k);
    FreshId(g, k);
    LastId(g, k);
    StoredAt(hash, g, root, store, k);
    StampedAt(hash, g, root, store, k);
    FollowsStamped(root, store, g.Ids(k), g.Id(k));
  }

  // ---------- a chain of pieces, whatever they hold ----------

  /** Piece `k` of a chain: the footer before it names it, and the walk may go there. */
  ghost predicate Link(root: NodeFile, store: map<Text, NodeFile>, ids: seq<Text>, bodies: seq<Text>, k: nat)
    requires |ids| == |bodies| && 0 < k < |ids|
  {
    Follows(root, store, ids[..k], ids[k]) && store[ids[k]].Body() == bodies[k] && NextOf(bodies[k - 1]) == Some(ids[k])
  }

  ghost predicate Chained(root: NodeFile, store: map<Text, NodeFile>, ids: seq<Text>, bodies: seq<Text>) {
    |ids| == |bodies| > 0 && forall k | 0 < k < |ids| :: Link(root, store, ids, bodies, k)
  }

  /** The walk runs through a whole chain of a managed root. */
  lemma {:induction false} WalkRunsThrough(root: NodeFile, store: map<Text, NodeFile>, pinned: bool,
                                           ids: seq<Text>, bodies: seq<Text>, k: nat)
    requires Managed(root) && Chained(root, store, ids, bodies) && 0 < k <= |ids|
    ensures Walk(root, store, pinned, ids[..k], bodies[..k]) == Walk(root, store, pinned, ids, bodies)
    decreases |ids| - k
  {
    hide NextOf, Follows;
    if k == |ids| {
      assert ids[..k] == ids && bodies[..k] == bodies;
    } else {
      assert Link(root, store, ids, bodies, k);
      assert ids[..k + 1] == ids[..k] + [ids[k]] && bodies[..k + 1] == bodies[..k] + [bodies[k]];
      WalkRunsThrough(root, store, pinned, ids, bodies, k + 1);
    }
  }

  /** Where the walk stops after the last piece of a chain. */
  lemma WalkStops(root: NodeFile, store: map<Text, NodeFile>, pinned: bool, ids: seq<Text>, bodies: seq<Text>)
    requires |ids| == |bodies| > 0 && Managed(root)
    ensures var next := NextOf(bodies[|bodies| - 1]);
      && (next.None? ==> Walk(root, store, pinned, ids, bodies) == Ended(ids, bodies))
      && (next.Some? && !Follows(root, store, ids, next.value) ==>
            Walk(root, store, pinned, ids, bodies) == Broken(ids, bodies, next.value))
  {
    hide NextOf, Follows;
  }

  lemma {:induction false} GenerationLinks(hash: Text -> Text, g: Generation, root: NodeFile, store: map<Text, NodeFile>,
                        ids: seq<Text>, bodies: seq<Text>, k: nat)
    requires g.WellNamed() && Stored(hash, g, root, store) && 0 < k < g.Count() == |ids| == |bodies|
    requires ids[k] == g.Id(k) && ids[..k] == g.Ids(k)
    requires bodies[k] == g.BodyAt(k) && bodies[k - 1] == g.BodyAt(k - 1)
    ensures Link(root, store, ids, bodies, k)
  {
    hide *;
    StepFollows(hash, g, root, store, k);
    FooterReads(g, k - 1);
    StoredAt(hash, g, root, store, k);
    LinkFrom(root, store, ids, bodies, k);
  }

  lemma {:induction false} StoredAt(hash: Text -> Text, g: Generation, root: NodeFile, store: map<Text, NodeFile>, k: nat)
    requires Stored(hash, g, root, store) && 0 < k < g.Count()
    ensures g.Id(k) in store && store[g.Id(k)].Body() == g.BodyAt(k)
  {
    assert StampedPart(hash, g, store[g.Id(k)], k);
  }

  lemma {:induction false} LinkFrom(root: NodeFile, store: map<Text, NodeFile>, ids: seq<Text>, bodies: seq<Text>, k: nat)
    requires |ids| == |bodies| && 0 < k < |ids|
    requires Follows(root, store, ids[..k], ids[k]) && ids[k] in store
    requires store[ids[k]].Body() == bodies[k] && NextOf(bodies[k - 1]) == Some(ids[k])
    ensures Link(root, store, ids, bodies, k)
  {
  }

  lemma IdsAndBodiesAt(g: Generation, k: nat)
    requires 0 < k < g.Count()
    ensures g.Ids(g.Count())[k] == g.Id(k) && g.Ids(g.Count())[..k] == g.Ids(k)
    ensures g.Bodies(g.Count())[k] == g.BodyAt(k) && g.Bodies(g.Count())[k - 1] == g.BodyAt(k - 1)
  {
    hide PieceId, Wrap, Kept, ChunksOf, Header, Footer;
  }

  lemma IdsAndBodies(g: Generation)
    ensures g.Ids(g.Count())[..1] == [g.Id(0)] && g.Bodies(g.Count())[..1] == [g.BodyAt(0)]
    ensures g.Bodies(g.Count())[g.Count() - 1] == g.BodyAt(g.Count() - 1)
  {
    hide PieceId, Wrap, Kept, ChunksOf, Header, Footer;
  }

  lemma {:induction false} GenerationIsChained(hash: Text -> Text, g: Generation, root: NodeFile, store: map<Text, NodeFile>)
    requires g.WellNamed() && Stored(hash, g, root, store)
    ensures Chained(root, store, g.Ids(g.Count()), g.Bodies(g.Count()))
  {
    hide Link, Stored, PieceId, IdForm, Wrap, Kept, ChunksOf;
    var ids, bodies := g.Ids(g.Count()), g.Bodies(g.Count());
    forall k | 0 < k < g.Count()
      ensures Link(root, store, ids, bodies, k)
    {
      IdsAndBodiesAt(g, k);
      GenerationLinks(hash, g, root, store, ids, bodies, k);
    }
  }

  /** The last line of the last slice, which the walk must not take for a footer. */
  function Dangling(g: Generation): Option<Text> {
    FooterTarget(LastLine(g.Got(g.Count() - 1)))
  }

  lemma {:induction false} WalkEnds(hash: Text -> Text, g: Generation, root: NodeFile, store: map<Text, NodeFile>, pinned: bool)
    requires g.WellNamed() && Stored(hash, g, root, store)
    ensures var end := Walk(root, store, pinned, [IdOf(root)], [root.Body()]);
      && (Dangling(g).None? ==> end == Ended(g.Ids(g.Count()), g.Bodies(g.Count())))
      && (Dangling(g).Some? && !Follows(root, store, g.Ids(g.Count()), Dangling(g).value) ==>
            end == Broken(g.Ids(g.Count()), g.Bodies(g.Count()), Dangling(g).value))
  {
    hide *;
    var ids, bodies := g.Ids(g.Count()), g.Bodies(g.Count());
    GenerationIsChained(hash, g, root, store);
    FinalLineReads(g);
    IdsAndBodies(g);
    StartsAtRoot(hash, g, root, store);
    WalkRunsThrough(root, store, pinned, ids, bodies, 1);
    WalkStops(root, store, pinned, ids, bodies);
  }

  lemma StartsAtRoot(hash: Text -> Text, g: Generation, root: NodeFile, store: map<Text, NodeFile>)
    requires Stored(hash, g, root, store)
    ensures g.Id(0) == IdOf(root) && g.BodyAt(0) == root.Body() && Managed(root) && root.digest == Some(hash(g.core))
  {
    hide Wrap, Kept, ChunksOf, ToLf;
  }

  /** Nothing but the parts of this generation carries its stamps. */
  ghost predicate NoStrays(hash: Text -> Text, g: Generation, store: map<Text, NodeFile>) {
    forall x | x in store && store[x].generation.GetOr([]) == hash(g.core) && store[x].continuationOf.GetOr([]) == g.id ::
      x in g.Ids(g.Count())
  }

  /** The digest tells the core from every other text. */
  ghost predicate NoCollision(hash: Text -> Text, core: Text) {
    forall t :: hash(t) == hash(core) ==> t == core
  }

  /** What a caller can check before publishing: no slice that goes into an LF file
      holds a CR LF or ends in a CR, and the last one does not end in a footer line. */
  predicate Publishable(g: Generation) {
    && (forall i | 0 <= i < g.Count() :: (i == 0 && g.crlf) || Clean(g.Chunks()[i]))
    && FooterTarget(LastLine(g.Chunks()[g.Count() - 1])).None?
  }

  function GotAll(g: Generation): (slices: seq<Text>)
    ensures |slices| == g.Count()
  {
    seq(g.Count(), i requires 0 <= i < g.Count() => g.Got(i))
  }

  lemma {:induction false} ShorterConcat(a: seq<Text>, b: seq<Text>)
    requires |a| == |b| && forall i | 0 <= i < |a| :: a[i] == b[i] || |a[i]| < |b[i]|
    ensures |Concat(a)| <= |Concat(b)|
    ensures (exists i :: 0 <= i < |a| && |a[i]| < |b[i]|) ==> |Concat(a)| < |Concat(b)|
    ensures (forall i | 0 <= i < |a| :: a[i] == b[i]) ==> Concat(a) == Concat(b)
  {
    if a != [] {
      ShorterConcat(a[1..], b[1..]);
      if exists i :: 0 < i < |a| && |a[i]| < |b[i]| {
        var i :| 0 < i < |a| && |a[i]| < |b[i]|;
        assert |a[1..][i - 1]| < |b[1..][i - 1]|;
      }
    }
  }

  lemma GotAgainstChunks(g: Generation)
    ensures forall i | 0 <= i < g.Count() ::
              if (i == 0 && g.crlf) || Clean(g.Chunks()[i]) then g.Got(i) == g.Chunks()[i] else |g.Got(i)| < |g.Chunks()[i]|
  {
    forall i | 0 <= i < g.Count()
      ensures if (i == 0 && g.crlf) || Clean(g.Chunks()[i]) then g.Got(i) == g.Chunks()[i] else |g.Got(i)| < |g.Chunks()[i]|
    {
      KeptFixes(g.Chunks()[i]);
    }
  }

  /** The core that is read back is the published one exactly when every slice survived. */
  lemma CoreReads(g: Generation)
    ensures Concat(GotAll(g)) == g.core <==>
            forall i | 0 <= i < g.Count() :: (i == 0 && g.crlf) || Clean(g.Chunks()[i])
  {
    GotAgainstChunks(g);
    ShorterConcat(GotAll(g), g.Chunks());
    ChunksOfConcatenate(g.core);
  }

  /** The answer for a stamped root whose walk ended with these slices. */
  ghost predicate EndedAnswer(hash: Text -> Text, root: NodeFile, parts: seq<Text>, slices: seq<Text>, r: Reading) {
    && r.body == Wrap(Concat(slices)) && |r.body| >= 2 && r.parts == parts
    && r.complete == Exact(hash, root, r.body)
    && r.missing.None? && r.generation == Some(root.digest.GetOr([])) && r.integrityFailed == !r.complete && !r.historyUnavailable
  }

  lemma ConcludeEnded(hash: Text -> Text, root: NodeFile, ids: seq<Text>, bodies: seq<Text>)
    requires |ids| == |bodies| > 0 && root.digest.Some?
    ensures EndedAnswer(hash, root, ids[1..], Slices(bodies), Conclude(hash, root, Ended(ids, bodies)))
  {
    hide Exact, Concat, Slices;
  }

  lemma {:induction false} EndedReading(hash: Text -> Text, g: Generation, root: NodeFile, store: map<Text, NodeFile>, pinned: bool)
    requires g.WellNamed() && Stored(hash, g, root, store) && Dangling(g).None?
    ensures EndedAnswer(hash, root, g.Ids(g.Count())[1..], GotAll(g), ReadChain(hash, root, store, pinned))
  {
    hide Walk, Conclude, EndedAnswer, Slices, Stored, Dangling, IdForm, PieceId;
    WalkEnds(hash, g, root, store, pinned);
    StartsAtRoot(hash, g, root, store);
    SlicesRead(g);
    ConcludeEnded(hash, root, g.Ids(g.Count()), g.Bodies(g.Count()));
  }

  /** The round trip: a published document reads back complete if and only if it is
      publishable, and then the answer is the exact core, under the ids it was
      published with. */
  lemma {:induction false} PublishedReadsBack(hash: Text -> Text, g: Generation, root: NodeFile, store: map<Text, NodeFile>, pinned: bool)
    requires g.WellNamed() && Stored(hash, g, root, store)
    requires NoStrays(hash, g, store) && NoCollision(hash, g.core)
    ensures ReadChain(hash, root, store, pinned).complete <==> Publishable(g)
    ensures Publishable(g) ==>
      ReadChain(hash, root, store, pinned)
        == Reading(Wrap(g.core), g.Ids(g.Count())[1..], true, Some(hash(g.core)), None, false, false)
  {
    CoreReads(g);
    if Dangling(g).None? {
      EndedReading(hash, g, root, store, pinned);
      EndedExactly(hash, g, root);
    } else {
      DanglingBreaks(hash, g, root, store, pinned);
    }
    DanglingOrNot(g);
  }

  lemma EndedExactly(hash: Text -> Text, g: Generation, root: NodeFile)
    requires root.digest == Some(hash(g.core)) && root.bytes == Some(Units(NatText(ByteLength(g.core))))
    requires NoCollision(hash, g.core)
    ensures Exact(hash, root, Wrap(Concat(GotAll(g)))) <==> Concat(GotAll(g)) == g.core
  {
    CoreOfWrap(Concat(GotAll(g)));
  }

  lemma {:induction false} DanglingBreaks(hash: Text -> Text, g: Generation, root: NodeFile, store: map<Text, NodeFile>, pinned: bool)
    requires g.WellNamed() && Stored(hash, g, root, store) && NoStrays(hash, g, store) && Dangling(g).Some?
    ensures !ReadChain(hash, root, store, pinned).complete
  {
    StrayStops(hash, g, root, store, Dangling(g).value);
    WalkEnds(hash, g, root, store, pinned);
  }

  lemma StrayStops(hash: Text -> Text, g: Generation, root: NodeFile, store: map<Text, NodeFile>, next: Text)
    requires Stored(hash, g, root, store) && NoStrays(hash, g, store)
    ensures !Follows(root, store, g.Ids(g.Count()), next)
  {
  }

  /** When every slice survived, the last line read is the last line published. */
  lemma DanglingOrNot(g: Generation)
    ensures (forall i | 0 <= i < g.Count() :: (i == 0 && g.crlf) || Clean(g.Chunks()[i])) ==>
              Dangling(g) == FooterTarget(LastLine(g.Chunks()[g.Count() - 1]))
  {
    GotAgainstChunks(g);
  }

  // ---------- from the publisher to the reader ----------

  function GenerationOf(hash: Text -> Text, source: NodeFile, kind: Text, prefixes: seq<Text>): Generation {
    var core := DocumentCore(source.Body());
    Generation(core, IdOf(source), GenerationBase(hash, IdOf(source), kind, hash(core), prefixes), source.crlf)
  }

  /** The store holds every part of the publication under its id. */
  ghost predicate PartsStored(g: Generation, parts: seq<NodeFile>, store: map<Text, NodeFile>) {
    |parts| == g.Count() - 1 && forall i | 0 < i < g.Count() :: g.Id(i) in store && store[g.Id(i)] == parts[i - 1]
  }

  lemma {:induction false} PublicationIsNamed(hash: Text -> Text, source: NodeFile, kind: Text, prefixes: seq<Text>)
    requires HexDigest(hash) && IdForm(IdOf(source)) && IdUnits(kind)
    requires var g := GenerationOf(hash, source, kind, prefixes);
      forall i | 0 < i < g.Count() :: g.Id(i) != g.id
    ensures GenerationOf(hash, source, kind, prefixes).WellNamed()
  {
    var g := GenerationOf(hash, source, kind, prefixes);
    forall i | 0 <= i < g.Count()
      ensures IdForm(g.Id(i))
    {
      PartIdIsId(hash, g.id, kind, hash(g.core), prefixes, i);
    }
    forall i, j | 0 <= i < j < g.Count()
      ensures g.Id(i) != g.Id(j)
    {
      if i > 0 && g.Id(i) == g.Id(j) {
        PartIdsDiffer(g.base, i, j);
      }
    }
  }

  lemma {:induction false} PublicationIsStored(hash: Text -> Text, source: NodeFile, kind: Text, prefixes: seq<Text>,
                            partRest: map<Text, Text>, store: map<Text, NodeFile>)
    requires GenerationOf(hash, source, kind, prefixes).WellNamed()
    requires DocumentGeneration(hash, source, kind, prefixes, partRest).Published?
    requires PartsStored(GenerationOf(hash, source, kind, prefixes),
                         DocumentGeneration(hash, source, kind, prefixes, partRest).parts, store)
    ensures Stored(hash, GenerationOf(hash, source, kind, prefixes),
                   DocumentGeneration(hash, source, kind, prefixes, partRest).root, store)
  {
    var g := GenerationOf(hash, source, kind, prefixes);
    PublicationShape(hash, source, kind, prefixes, partRest);
    RootAsStored(hash, g, source);
    AllPartsAsStored(hash, g, partRest);
    hide RootNode, PartNode, DocumentGeneration, PieceId, ChunksOf, DocumentCore, GenerationBase, ToLf, Wrap, Kept, IdForm, StampedPart;
    var pub := DocumentGeneration(hash, source, kind, prefixes, partRest);
    forall k | 0 <= k < |pub.parts|
      ensures StampedPart(hash, g, pub.parts[k], k + 1)
    {
      assert pub.parts[k] == PartNode(g.Chunks(), g.id, g.base, hash(g.core), partRest, k + 1);
    }
    StoredFromParts(hash, g, pub.root, pub.parts, store);
  }

  lemma StoredFromParts(hash: Text -> Text, g: Generation, root: NodeFile, parts: seq<NodeFile>, store: map<Text, NodeFile>)
    requires PartsStored(g, parts, store)
    requires root.id == Some(g.id) && root.generation.None? && root.Body() == g.BodyAt(0)
    requires root.digest == Some(hash(g.core)) && root.bytes == Some(Units(NatText(ByteLength(g.core))))
    requires forall k | 0 <= k < |parts| :: StampedPart(hash, g, parts[k], k + 1)
    ensures Stored(hash, g, root, store)
  {
    hide PieceId, ChunksOf, ToLf, Wrap, Kept, ByteLength, Units;
    forall i | 0 < i < g.Count()
      ensures g.Id(i) in store && StampedPart(hash, g, store[g.Id(i)], i)
    {
      assert StampedPart(hash, g, parts[i - 1], i - 1 + 1);
    }
  }

  /** A part file of generation `g` that reads as its piece `i`. */
  predicate StampedPart(hash: Text -> Text, g: Generation, part: NodeFile, i: nat) {
    && i < g.Count()
    && part.generation == Some(hash(g.core)) && part.continuationOf == Some(g.id) && part.Body() == g.BodyAt(i)
  }

  lemma {:induction false} AllPartsAsStored(hash: Text -> Text, g: Generation, rest: map<Text, Text>)
    requires g.WellNamed()
    ensures forall i | 0 < i < g.Count() ::
              StampedPart(hash, g, PartNode(g.Chunks(), g.id, g.base, hash(g.core), rest, i), i)
  {
    hide StampedPart, PartNode, PieceId, IdForm;
    forall i | 0 < i < g.Count()
      ensures StampedPart(hash, g, PartNode(g.Chunks(), g.id, g.base, hash(g.core), rest, i), i)
    {
      PartAsStored(hash, g, rest, i);
    }
  }

  /** The files of a publication, by the generation they belong to. */
  lemma {:induction false} PublicationShape(hash: Text -> Text, source: NodeFile, kind: Text, prefixes: seq<Text>, rest: map<Text, Text>)
    requires DocumentGeneration(hash, source, kind, prefixes, rest).Published?
    ensures var pub, g := DocumentGeneration(hash, source, kind, prefixes, rest), GenerationOf(hash, source, kind, prefixes);
      && source.id == Some(g.id) && source.generation.None?
      && pub.root == RootNode(source, g.Chunks(), g.id, g.base, hash(g.core), ByteLength(g.core))
      && |pub.parts| == g.Count() - 1
      && forall k | 0 <= k < |pub.parts| :: pub.parts[k] == PartNode(g.Chunks(), g.id, g.base, hash(g.core), rest, k + 1)
  {
    hide RootNode, PartNode, PieceId, ChunksOf, GenerationBase, ByteLength;
  }

  lemma RootAsStored(hash: Text -> Text, g: Generation, source: NodeFile)
    requires g.WellNamed() && source.crlf == g.crlf && source.id == Some(g.id) && source.generation.None?
    ensures var root := RootNode(source, g.Chunks(), g.id, g.base, hash(g.core), ByteLength(g.core));
      && root.id == Some(g.id) && root.generation.None?
      && root.digest == Some(hash(g.core)) && root.bytes == Some(Units(NatText(ByteLength(g.core))))
      && root.Body() == g.BodyAt(0)
  {
    PieceAsStored(g, 0);
    hide Piece, Wrap, ToLf, ToCrLf, ByteLength, Units;
  }

  lemma {:induction false} PartAsStored(hash: Text -> Text, g: Generation, rest: map<Text, Text>, i: nat)
    requires g.WellNamed() && 0 < i < g.Count()
    ensures StampedPart(hash, g, PartNode(g.Chunks(), g.id, g.base, hash(g.core), rest, i), i)
  {
    PieceAsStored(g, i);
    hide Piece, Wrap, ToLf;
  }

  /** Publishing any document and reading its chain back: complete if and only if
      the document is publishable, and then exactly the core that was published,
      with its digest, under the part ids the publisher named. */
  lemma {:induction false} PublishThenRead(hash: Text -> Text, source: NodeFile, kind: Text, prefixes: seq<Text>,
                        partRest: map<Text, Text>, store: map<Text, NodeFile>, pinned: bool)
    requires HexDigest(hash) && IdForm(IdOf(source)) && IdUnits(kind)
    requires DocumentGeneration(hash, source, kind, prefixes, partRest).Published?
    requires var g := GenerationOf(hash, source, kind, prefixes);
      && (forall i | 0 < i < g.Count() :: g.Id(i) != g.id)
      && PartsStored(g, DocumentGeneration(hash, source, kind, prefixes, partRest).parts, store)
      && NoStrays(hash, g, store) && NoCollision(hash, g.core)
    ensures var g := GenerationOf(hash, source, kind, prefixes);
      var r := ReadChain(hash, DocumentGeneration(hash, source, kind, prefixes, partRest).root, store, pinned);
      && (r.complete <==> Publishable(g))
      && (Publishable(g) ==>
            r == Reading(Wrap(DocumentCore(source.Body())), g.Ids(g.Count())[1..], true, Some(hash(g.core)), None, false, false))
  {
    var g := GenerationOf(hash, source, kind, prefixes);
    PublicationIsNamed(hash, source, kind, prefixes);
    PublicationIsStored(hash, source, kind, prefixes, partRest, store);
    PublishedReadsBack(hash, g, DocumentGeneration(hash, source, kind, prefixes, partRest).root, store, pinned);
  }

  lemma {:induction false} ChunkUnits(chunks: seq<Text>, i: nat)
    requires i < |chunks|
    ensures forall u | u in chunks[i] :: u in Concat(chunks)
  {
    if i > 0 {
      ChunkUnits(chunks[1..], i - 1);
    }
  }

  lemma {:induction false} LastChunkIsSuffix(chunks: seq<Text>)
    requires chunks != []
    ensures |chunks[|chunks| - 1]| <= |Concat(chunks)|
    ensures Concat(chunks)[|Concat(chunks)| - |chunks[|chunks| - 1]|..] == chunks[|chunks| - 1]
  {
    if |chunks| == 1 {
      assert Concat(chunks) == chunks[0] + Concat([]);
    } else {
      LastChunkIsSuffix(chunks[1..]);
    }
  }

  /** A suffix of a suffix: if the last line of the last slice is a footer line,
      the text it ends closes the same way. */
  lemma FooterCloses(whole: Text, last: Text)
    requires |last| <= |whole| && whole[|whole| - |last|..] == last
    requires FooterTarget(LastLine(last)).Some?
    ensures |whole| >= 2 && whole[|whole| - 2..] == CLOSE
  {
    var line := LastLine(last);
    assert line[|line| - 2..] == CLOSE;
    assert last[|last| - 2..] == line[|line| - 2..];
  }

  lemma CrFreeSlices(g: Generation)
    requires CR !in g.core
    ensures forall i | 0 <= i < g.Count() :: Clean(g.Chunks()[i])
  {
    ChunksOfConcatenate(g.core);
    forall i | 0 <= i < g.Count()
      ensures Clean(g.Chunks()[i])
    {
      ChunkUnits(g.Chunks(), i);
      NoCrClean(g.Chunks()[i]);
    }
  }

  lemma LastSliceCloses(g: Generation)
    requires FooterTarget(LastLine(g.Chunks()[g.Count() - 1])).Some?
    ensures |g.core| >= 2 && g.core[|g.core| - 2..] == CLOSE
  {
    hide FooterTarget, LastLine, ChunksOf, SpillChunks;
    var chunks := g.Chunks();
    ChunksOfConcatenate(g.core);
    LastChunkIsSuffix(chunks);
    FooterCloses(g.core, chunks[|chunks| - 1]);
  }

  /** The common case: no carriage return anywhere, and a core that does not end
      the way a footer line ends. */
  lemma PlainCoreIsPublishable(g: Generation)
    requires CR !in g.core
    requires |g.core| < 2 || g.core[|g.core| - 2..] != CLOSE
    ensures Publishable(g)
  {
    CrFreeSlices(g);
    if !Publishable(g) {
      LastSliceCloses(g);
    }
  }

  lemma SinglePiece(core: Text, id: Text, base: Text)
    requires ByteLength(core) <= DOC_BODY_CAP
    ensures Generation(core, id, base, false).Chunks() == [core]
  {
  }

  /** A one-line document that is itself a footer line cannot be read back. */
  lemma FooterCoreFails(next: Text, id: Text, base: Text)
    requires IdForm(next) && |next| <= MAX_ID_LENGTH
    ensures !Publishable(Generation(Footer(next), id, base, false))
  {
    IdBytes(next);
    SinglePiece(Footer(next), id, base);
    IdsHaveNoBreaks(next);
    FooterRoundTrip(next);
    assert LastNewline(Footer(next)) == -1;
    assert LastLine(Footer(next)) == Footer(next);
  }

  /** Nor can a document in an LF file whose one piece holds a CR LF. */
  lemma CrLfCoreFails(core: Text, id: Text, base: Text)
    requires ByteLength(core) <= DOC_BODY_CAP && HasCrLf(core)
    ensures !Publishable(Generation(core, id, base, false))
  {
    SinglePiece(core, id, base);
    var i :| 0 <= i < |core| - 1 && core[i] == CR && core[i + 1] == NL;
    assert (core + [NL])[i] == CR && (core + [NL])[i + 1] == NL;
    assert !Clean(core);
    assert Generation(core, id, base, false).Chunks()[0] == core;
  }
}
