/** Document generations: the piece layout, publication, and the chain read. */
module ContentChain {
  import opened Common
  import opened ContentText
  import opened ContentSpill

  /** A node file: the fields the document rules look at, the rest of its
      frontmatter, and its raw body text. `crlf` is its header's line ending. */
  datatype NodeFile = NodeFile(
    id: Option<Text>,
    digest: Option<Text>,
    bytes: Option<Text>,
    generation: Option<Text>,
    continuationOf: Option<Text>,
    links: set<Text>,
    rest: map<Text, Text>,
    crlf: bool,
    raw: Text)
  {
    /** The body as every reader sees it, LF-normalized. */
    function Body(): Text {
      ToLf(raw)
    }
  }

  datatype Role = Root | Part | Ordinary

  function RoleOf(n: NodeFile): Role {
    if n.generation.Some? then Part
    else if n.digest.Some? || n.bytes.Some? then Root
    else Ordinary
  }

  const DOC_BODY_CAP := 8192
  const MAX_ID_LENGTH := 200
  const MAX_PARTS := 500
  const HEADER_OPEN: Text := [95, 40, 99, 111, 110, 116, 105, 110, 117, 101, 100, 32, 102, 114, 111, 109, 32]  // "_(continued from "
  const FOOTER_OPEN: Text := [95, 40, 99, 111, 110, 116, 105, 110, 117, 101, 115, 32, 105, 110, 32]  // "_(continues in "
  const CLOSE: Text := [41, 95]  // ")_"
  // The bytes a header and a footer naming ids of the longest length take, with their newlines.
  const SPILL_OVERHEAD := (17 + MAX_ID_LENGTH + 2) + 1 + 1 + (15 + MAX_ID_LENGTH + 2)
  const SLICE_CAP := DOC_BODY_CAP - SPILL_OVERHEAD

  function Header(id: Text): Text { HEADER_OPEN + id + CLOSE }

  function Footer(id: Text): Text { FOOTER_OPEN + id + CLOSE }

  predicate Alphanumeric(u: Unit) {
    'a' as int <= u <= 'z' as int || '0' as int <= u <= '9' as int
  }

  /** `[a-z0-9][a-z0-9-]*` */
  predicate IdForm(t: Text) {
    t != [] && Alphanumeric(t[0]) && forall i | 0 <= i < |t| :: Alphanumeric(t[i]) || t[i] == '-' as int
  }

  /** The id a footer line names, when the whole line is a footer. */
  function FooterTarget(line: Text): Option<Text> {
    if |line| >= |FOOTER_OPEN| + |CLOSE| && FOOTER_OPEN <= line && line[|line| - |CLOSE|..] == CLOSE
       && IdForm(line[|FOOTER_OPEN|..|line| - |CLOSE|])
    then Some(line[|FOOTER_OPEN|..|line| - |CLOSE|])
    else None
  }

  /** One wrapping newline dropped from each side. */
  function Strip(b: Text): Text {
    var t := if b != [] && b[0] == NL then b[1..] else b;
    if t != [] && t[|t| - 1] == NL then t[..|t| - 1] else t
  }

  function Wrap(t: Text): Text { [NL] + t + [NL] }

  /** A stored body without its header line (all but the first piece) and its
      footer line (all but the last). */
  function Slice(body: Text, first: bool, last: bool): Text {
    var t := Strip(body);
    var u := if first then t else t[FirstNewline(t) + 1..];
    if last then u
    else if LastNewline(u) >= 0 then u[..LastNewline(u)]
    else if u == [] then [] else u[..|u| - 1]
  }

  function Slices(bodies: seq<Text>): (slices: seq<Text>)
    ensures |slices| == |bodies|
  {
    seq(|bodies|, i requires 0 <= i < |bodies| => Slice(bodies[i], i == 0, i == |bodies| - 1))
  }

  function Reassemble(bodies: seq<Text>): Text {
    Wrap(Concat(Slices(bodies)))
  }

  // ---------- the chain read ----------

  datatype Reading = Reading(body: Text, parts: seq<Text>, complete: bool, generation: Option<Text>,
                             missing: Option<Text>, integrityFailed: bool, historyUnavailable: bool)

  datatype WalkEnd = Ended(ids: seq<Text>, bodies: seq<Text>)
                   | Broken(ids: seq<Text>, bodies: seq<Text>, missing: Text)
                   | Withheld(ids: seq<Text>, bodies: seq<Text>, missing: Text)

  function IdOf(n: NodeFile): Text { n.id.GetOr([]) }

  predicate Managed(root: NodeFile) { RoleOf(root).Root? }

  /** May the walk go from the last of `ids` on to `next`? */
  predicate Follows(root: NodeFile, store: map<Text, NodeFile>, ids: seq<Text>, next: Text)
    requires ids != []
  {
    && next !in ids
    && next in store
    && (Managed(root) ==>
          && store[next].generation.GetOr([]) == root.digest.GetOr([])
          && store[next].continuationOf.GetOr([]) == IdOf(root))
    && FirstLine(Strip(store[next].Body())) == Header(ids[|ids| - 1])
  }

  function Elements(ids: seq<Text>): set<Text> {
    set x | x in ids
  }

  /** The id the last line of a stored body names, if it is a footer. */
  function NextOf(body: Text): Option<Text> {
    FooterTarget(LastLine(Strip(body)))
  }

  /** The walk ends on every store, footers in a cycle included: each step uses up an id. */
  function Walk(root: NodeFile, store: map<Text, NodeFile>, pinned: bool, ids: seq<Text>, bodies: seq<Text>): (end: WalkEnd)
    requires |ids| == |bodies| > 0
    ensures |end.ids| == |end.bodies| > 0
    decreases |store.Keys - Elements(ids)|
  {
    match NextOf(bodies[|bodies| - 1])
    case None => Ended(ids, bodies)
    case Some(next) =>
      if pinned && !Managed(root) then Withheld(ids, bodies, next)
      else if !Follows(root, store, ids, next) then Broken(ids, bodies, next)
      else
        FewerLeft(store, ids, next);
        Walk(root, store, pinned, ids + [next], bodies + [store[next].Body()])
  }

  lemma FollowsNew(root: NodeFile, store: map<Text, NodeFile>, ids: seq<Text>, next: Text)
    requires ids != [] && Follows(root, store, ids, next)
    ensures next !in ids && next in store
  {
  }

  lemma FewerLeft(store: map<Text, NodeFile>, ids: seq<Text>, next: Text)
    requires next !in ids && next in store
    ensures |store.Keys - Elements(ids + [next])| < |store.Keys - Elements(ids)|
  {
    assert Elements(ids + [next]) == Elements(ids) + {next};
    assert store.Keys - Elements(ids + [next]) == (store.Keys - Elements(ids)) - {next};
  }

  /** Is the reassembled body exactly the one the root is stamped with? */
  predicate Exact(hash: Text -> Text, root: NodeFile, body: Text)
    requires |body| >= 2
  {
    root.bytes.GetOr([]) == Units(NatText(ByteLength(Core(body)))) && root.digest.GetOr([]) == hash(Core(body))
  }

  function Core(body: Text): Text
    requires |body| >= 2
  {
    body[1..|body| - 1]
  }

  function Conclude(hash: Text -> Text, root: NodeFile, end: WalkEnd): Reading
    requires |end.ids| == |end.bodies| > 0
  {
    var body := Reassemble(end.bodies);
    var generation := if root.digest.Some? || root.bytes.Some? then Some(root.digest.GetOr([])) else None;
    match end
    case Withheld(_, _, next) => Reading(body, [], false, None, Some(next), false, true)
    case Broken(ids, _, next) =>
      Reading(body, ids[1..], false, if Managed(root) then Some(root.digest.GetOr([])) else None, Some(next), false, false)
    case Ended(ids, _) =>
      if generation.Some? && !Exact(hash, root, body) then Reading(body, ids[1..], false, generation, None, true, false)
      else Reading(body, ids[1..], true, generation, None, false, false)
  }

  function ReadChain(hash: Text -> Text, root: NodeFile, store: map<Text, NodeFile>, pinned: bool): Reading {
    Conclude(hash, root, Walk(root, store, pinned, [IdOf(root)], [root.Body()]))
  }

  /** The walk as the source runs it. */
  method ReadDocumentChain(hash: Text -> Text, root: NodeFile, store: map<Text, NodeFile>, pinned: bool) returns (r: Reading)
    ensures r == ReadChain(hash, root, store, pinned)
  {
    hide NextOf, Follows, Conclude;
    var ids, bodies := [IdOf(root)], [root.Body()];
    while true
      invariant |ids| == |bodies| > 0
      invariant Walk(root, store, pinned, ids, bodies) == Walk(root, store, pinned, [IdOf(root)], [root.Body()])
      decreases |store.Keys - Elements(ids)|
    {
      var target := NextOf(bodies[|bodies| - 1]);
      if target.None? {
        return Conclude(hash, root, Ended(ids, bodies));
      }
      if pinned && !Managed(root) {
        return Conclude(hash, root, Withheld(ids, bodies, target.value));
      }
      if !Follows(root, store, ids, target.value) {
        return Conclude(hash, root, Broken(ids, bodies, target.value));
      }
      FollowsNew(root, store, ids, target.value);
      FewerLeft(store, ids, target.value);
      ids, bodies := ids + [target.value], bodies + [store[target.value].Body()];
    }
  }

  lemma CoreOfWrap(c: Text)
    ensures Core(Wrap(c)) == c
  {
  }

  lemma ConcludeExact(hash: Text -> Text, root: NodeFile, end: WalkEnd)
    requires |end.ids| == |end.bodies| > 0 && Managed(root) && Conclude(hash, root, end).complete
    ensures var body := Conclude(hash, root, end).body;
      |body| >= 2 && body == Wrap(Core(body)) && Exact(hash, root, body)
  {
    CoreOfWrap(Concat(Slices(end.bodies)));
  }

  /** A complete answer for a managed root is wrapped in newlines, and what they
      wrap has exactly the stamped digest and byte count. */
  lemma {:induction false} CompleteIsExact(hash: Text -> Text, root: NodeFile, store: map<Text, NodeFile>, pinned: bool)
    requires Managed(root) && ReadChain(hash, root, store, pinned).complete
    ensures var body := ReadChain(hash, root, store, pinned).body;
      && |body| >= 2 && body == Wrap(Core(body))
      && root.digest.GetOr([]) == hash(Core(body))
      && root.bytes.GetOr([]) == Units(NatText(ByteLength(Core(body))))
  {
    ConcludeExact(hash, root, Walk(root, store, pinned, [IdOf(root)], [root.Body()]));
  }
}
