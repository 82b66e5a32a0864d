/** What cutting a key's lines does to a block: exactly when every other field and every edge stays
    (`lib/kernel/frontmatter.js`). */
module FrontmatterCut {
  import opened Common
  import opened ContentText
  import opened FrontmatterScalar
  import opened FrontmatterLines
  import opened FrontmatterLexer
  import opened FrontmatterCore
  import opened FrontmatterFold

  predicate IsHeader(v: View) {
    v.ListLine? || v.KeyLine?
  }

  predicate HeaderOf(v: View, k: Text) {
    IsHeader(v) && v.key == k
  }

  /** Equal but for the field `k` and what the next line may add to. */
  ghost predicate SameBut(k: Text, c: Core, d: Core) {
    c.edges == d.edges && c.faulty == d.faulty && forall q | q != k :: Lookup<Value>(c.fields, q) == Lookup<Value>(d.fields, q)
  }

  lemma {:induction false} LookupPut(m: Fields, k: Text, v: Value, q: Text)
    ensures Lookup<Value>(Put(m, k, v), q) == if q == k then Some(v) else Lookup(m, q)
  {
    if m != [] && m[0].0 != k {
      LookupPut(m[1..], k, v, q);
      assert Put(m, k, v)[1..] == Put(m[1..], k, v);
    }
  }

  // ---------- one field through the lines ----------

  /** The field `p` is the same in both. */
  ghost predicate SameAt(p: Text, c: Core, d: Core) {
    Lookup<Value>(c.fields, p) == Lookup<Value>(d.fields, p)
  }

  lemma SameButAt(k: Text, c: Core, d: Core)
    ensures SameBut(k, c, d) <==> c.edges == d.edges && c.faulty == d.faulty && forall p | p != k :: SameAt(p, c, d)
  {
    hide Lookup;
    if SameBut(k, c, d) {
      forall p | p != k
        ensures SameAt(p, c, d)
      {
      }
    } else if c.edges == d.edges && c.faulty == d.faulty {
      var q :| q != k && Lookup<Value>(c.fields, q) != Lookup<Value>(d.fields, q);
      assert !SameAt(q, c, d);
    }
  }

  lemma PutSameAt(p: Text, c: Core, d: Core, q: Text, v: Value, w: Value)
    requires SameAt(p, c, d) || q == p
    requires q == p ==> v == w
    ensures SameAt(p, c.(fields := Put(c.fields, q, v)), d.(fields := Put(d.fields, q, w)))
  {
    hide Put, Lookup;
    LookupPut(c.fields, q, v, p);
    LookupPut(d.fields, q, w, p);
  }

  /** A header sets its own field, whatever it was, and leaves the others. */
  lemma HeaderSameAt(p: Text, c: Core, d: Core, v: View)
    requires IsHeader(v) && (SameAt(p, c, d) || (HeaderOf(v, p) && p != EDGES))
    ensures SameAt(p, CoreStep(c, v), CoreStep(d, v)) && CoreStep(c, v).mode == CoreStep(d, v).mode
  {
    hide CoreFlush, Put, Lookup, ScalarValue, Trim, IsListField;
    var a, b := CoreFlush(c), CoreFlush(d);
    FlushKeepsFields(c);
    FlushKeepsFields(d);
    match v
    case ListLine(q, items) => PutSameAt(p, a, b, q, List(items), List(items));
    case KeyLine(q, raw) =>
      if q != EDGES {
        PutSameAt(p, a, b, q, List([]), List([]));
        PutSameAt(p, a, b, q, Scalar(ScalarValue(raw)), Scalar(ScalarValue(raw)));
      }
  }

  lemma FlushKeepsFields(c: Core)
    ensures CoreFlush(c).fields == c.fields
  {
    hide Complete;
  }

  lemma StepSameAt(p: Text, c: Core, d: Core, v: View)
    requires SameAt(p, c, d) && c.mode == d.mode
    ensures SameAt(p, CoreStep(c, v), CoreStep(d, v)) && CoreStep(c, v).mode == CoreStep(d, v).mode
  {
    hide Put, Lookup, ScalarValue, Trim, IsListField, Complete, QuoteOpen;
    if IsHeader(v) {
      HeaderSameAt(p, c, d, v);
    } else if v.Other? && c.mode.Lists? {
      var q := c.mode.key;
      if v.item.Some? {
        var t := ScalarValue(Trim(v.item.value));
        PutSameAt(p, c, d, q, List(ItemsOf(c.fields, q) + [t]), List(ItemsOf(d.fields, q) + [t]));
      }
    } else if v.Other? && c.mode.Folds? && v.folded.Some? {
      FoldSameAt(p, c, d, v.folded.value);
    }
  }

  lemma FoldSameAt(p: Text, c: Core, d: Core, more: Text)
    requires SameAt(p, c, d) && c.mode == d.mode && c.mode.Folds?
    ensures SameAt(p, CoreFold(c, more), CoreFold(d, more)) && CoreFold(c, more).mode == CoreFold(d, more).mode
  {
    hide Put, Lookup, ScalarValue, Trim, QuoteOpen;
    var q := c.mode.key;
    if QuoteOpen(Trim(c.mode.raw)) {
      var t := Scalar(ScalarValue(c.mode.raw + [SPACE] + Trim(more)));
      PutSameAt(p, c, d, q, t, t);
    } else {
      PutSameAt(p, c, d, q, Scalar(TextOf(c.fields, q) + [SPACE] + Trim(more)), Scalar(TextOf(d.fields, q) + [SPACE] + Trim(more)));
    }
  }

  /** Once the same, or once a header of it has come by, the field ends the same. */
  lemma {:induction false} RunSameAt(p: Text, c: Core, d: Core, vs: seq<View>)
    requires c.mode == d.mode && (SameAt(p, c, d) || (HasHeaderOf(vs, p) && p != EDGES))
    ensures SameAt(p, CoreFlush(CoreRun(c, vs)), CoreFlush(CoreRun(d, vs)))
    decreases |vs|
  {
    hide CoreStep, CoreFlush, SameAt, Lookup;
    if vs == [] {
      FlushSameAt(p, c, d);
    } else {
      var v := vs[0];
      if SameAt(p, c, d) {
        StepSameAt(p, c, d, v);
      } else {
        if HeaderOf(v, p) {
          HeaderSameAt(p, c, d, v);
        } else {
          HeaderComes(vs, p);
        }
        StepsAlike(c.edges, c.faulty, c, Core([], [], false, c.mode), v);
        StepsAlike(d.edges, d.faulty, d, Core([], [], false, c.mode), v);
      }
      RunSameAt(p, CoreStep(c, v), CoreStep(d, v), vs[1..]);
    }
  }

  lemma FlushSameAt(p: Text, c: Core, d: Core)
    ensures SameAt(p, c, d) <==> SameAt(p, CoreFlush(c), CoreFlush(d))
  {
    hide Lookup, CoreFlush;
    FlushKeepsFields(c);
    FlushKeepsFields(d);
  }

  predicate NoHeaderOf(vs: seq<View>, k: Text) {
    forall i | 0 <= i < |vs| :: !HeaderOf(vs[i], k)
  }

  predicate HasHeaderOf(vs: seq<View>, k: Text) {
    !NoHeaderOf(vs, k)
  }

  lemma HeaderComes(vs: seq<View>, k: Text)
    requires vs != [] && HasHeaderOf(vs, k) && !HeaderOf(vs[0], k)
    ensures HasHeaderOf(vs[1..], k)
  {
    hide HeaderOf;
    var i :| 0 <= i < |vs| && HeaderOf(vs[i], k);
    assert vs[1..][i - 1] == vs[i];
  }

  predicate OtherKey(m: CoreMode, k: Text) {
    (m.Folds? ==> m.key != k) && (m.Lists? ==> m.key != k)
  }

  lemma StepKeepsField(k: Text, c: Core, v: View)
    requires OtherKey(c.mode, k) && !HeaderOf(v, k)
    ensures Lookup<Value>(CoreStep(c, v).fields, k) == Lookup(c.fields, k) && OtherKey(CoreStep(c, v).mode, k)
  {
    hide Put, Lookup, ScalarValue, Trim, IsListField, Complete, QuoteOpen, TextOf, ItemsOf;
    var d := CoreFlush(c);
    match v
    case ListLine(q, items) => LookupPut(d.fields, q, List(items), k);
    case KeyLine(q, raw) =>
      LookupPut(d.fields, q, List([]), k);
      LookupPut(d.fields, q, Scalar(ScalarValue(raw)), k);
    case FlowLine(_) =>
    case Other(_, _, item, folded, _) =>
      if c.mode.Lists? && item.Some? {
        LookupPut(c.fields, c.mode.key, List(ItemsOf(c.fields, c.mode.key) + [ScalarValue(Trim(item.value))]), k);
      } else if c.mode.Folds? && folded.Some? {
        LookupPut(c.fields, c.mode.key, Scalar(ScalarValue(c.mode.raw + [SPACE] + Trim(folded.value))), k);
        LookupPut(c.fields, c.mode.key, Scalar(TextOf(c.fields, c.mode.key) + [SPACE] + Trim(folded.value)), k);
      }
  }

  lemma {:induction false} RunKeepsField(k: Text, c: Core, vs: seq<View>)
    requires OtherKey(c.mode, k) && NoHeaderOf(vs, k)
    ensures Lookup<Value>(CoreFlush(CoreRun(c, vs)).fields, k) == Lookup(c.fields, k)
    decreases |vs|
  {
    hide CoreStep, Lookup, OtherKey, Complete;
    if vs != [] {
      StepKeepsField(k, c, vs[0]);
      assert NoHeaderOf(vs[1..], k);
      RunKeepsField(k, CoreStep(c, vs[0]), vs[1..]);
    }
  }

  lemma HeaderKeepsField(k: Text, c: Core, v: View)
    requires IsHeader(v) && !HeaderOf(v, k)
    ensures Lookup<Value>(CoreStep(c, v).fields, k) == Lookup(c.fields, k) && OtherKey(CoreStep(c, v).mode, k)
  {
    hide Put, Lookup, ScalarValue, Trim, IsListField, Complete;
    var d := CoreFlush(c);
    match v
    case ListLine(q, items) => LookupPut(d.fields, q, List(items), k);
    case KeyLine(q, raw) =>
      LookupPut(d.fields, q, List([]), k);
      LookupPut(d.fields, q, Scalar(ScalarValue(raw)), k);
  }

  /** Nothing, or a header first. */
  predicate FromHeader(vs: seq<View>) {
    vs == [] || IsHeader(vs[0])
  }

  /** The next header makes the mode, whatever it was: a field none of the lines heads stays. */
  lemma {:induction false} RestKeepsField(p: Text, c: Core, r: seq<View>)
    requires FromHeader(r) && NoHeaderOf(r, p)
    ensures Lookup<Value>(CoreFlush(CoreRun(c, r)).fields, p) == Lookup(c.fields, p)
  {
    hide Lookup, Complete, CoreStep, CoreFlush;
    FlushKeepsFields(CoreRun(c, r));
    if r != [] {
      assert NoHeaderOf(r[1..], p);
      HeaderKeepsField(p, c, r[0]);
      RunKeepsField(p, CoreStep(c, r[0]), r[1..]);
    }
  }

  lemma {:induction false} RestSameAt(p: Text, c: Core, d: Core, r: seq<View>)
    requires FromHeader(r) && (SameAt(p, c, d) || (HasHeaderOf(r, p) && p != EDGES))
    ensures SameAt(p, CoreFlush(CoreRun(c, r)), CoreFlush(CoreRun(d, r)))
  {
    hide CoreStep, CoreFlush, SameAt, HeaderOf;
    if r == [] {
      FlushSameAt(p, c, d);
    } else if SameAt(p, c, d) || HeaderOf(r[0], p) {
      HeaderSameAt(p, c, d, r[0]);
      RunSameAt(p, CoreStep(c, r[0]), CoreStep(d, r[0]), r[1..]);
    } else {
      HeaderComes(r, p);
      HeaderModes(c, d, r[0]);
      RunSameAt(p, CoreStep(c, r[0]), CoreStep(d, r[0]), r[1..]);
    }
  }

  lemma HeaderModes(c: Core, d: Core, v: View)
    requires IsHeader(v)
    ensures CoreStep(c, v).mode == CoreStep(d, v).mode == HeaderMode(v)
  {
    hide CoreFlush, Put, ScalarValue, Trim, IsListField;
  }

  /** The mode a header leaves. */
  function HeaderMode(h: View): CoreMode
    requires IsHeader(h)
  {
    match h
    case KeyLine(k, raw) =>
      if k == EDGES then UnderEdges(None) else if IsListField(k) && Trim(raw) == [] then Lists(k) else Folds(k, raw)
    case _ => Nothing
  }

  // ---------- loose lines ----------

  /** No header among them. */
  predicate Loose(vs: seq<View>) {
    forall i | 0 <= i < |vs| :: !IsHeader(vs[i])
  }

  /** The flow edges on the lines. */
  function FlowEdges(vs: seq<View>): seq<Props> {
    if vs == [] then [] else (if vs[0].FlowLine? then [vs[0].props] else []) + FlowEdges(vs[1..])
  }

  lemma {:induction false} FlowEdgesAdd(a: seq<View>, b: seq<View>)
    ensures FlowEdges(a + b) == FlowEdges(a) + FlowEdges(b)
  {
    if a == [] {
      assert a + b == b;
    } else {
      FlowEdgesAdd(a[1..], b);
      assert (a + b)[1..] == a[1..] + b && (a + b)[0] == a[0];
      var head, front, rest := if a[0].FlowLine? then [a[0].props] else [], FlowEdges(a[1..]), FlowEdges(b);
      assert FlowEdges(a + b) == head + (front + rest);
      assert head + (front + rest) == (head + front) + rest;
    }
  }

  /** Under no `edges:`, loose lines add their flow edges and no fault. */
  lemma {:induction false} LooseAdds(c: Core, vs: seq<View>)
    requires Loose(vs) && !c.mode.UnderEdges?
    ensures var d := CoreRun(c, vs);
            !d.mode.UnderEdges? && CoreFlush(d) == d && d.edges == c.edges + FlowEdges(vs) && d.faulty == c.faulty
    decreases |vs|
  {
    hide CoreStep, FlowEdges, Complete;
    if vs == [] {
      NoFlowEdges(vs);
    } else {
      LooseStep(c, vs[0]);
      LooseAdds(CoreStep(c, vs[0]), vs[1..]);
      FlowHead(vs);
      var head, rest := if vs[0].FlowLine? then [vs[0].props] else [], FlowEdges(vs[1..]);
      assert (c.edges + head) + rest == c.edges + (head + rest);
    }
  }

  lemma FlowHead(vs: seq<View>)
    requires vs != []
    ensures FlowEdges(vs) == (if vs[0].FlowLine? then [vs[0].props] else []) + FlowEdges(vs[1..])
  {
  }

  lemma LooseStep(c: Core, v: View)
    requires !IsHeader(v) && !c.mode.UnderEdges?
    ensures var d := CoreStep(c, v);
            !d.mode.UnderEdges? && d.faulty == c.faulty && d.edges == c.edges + if v.FlowLine? then [v.props] else []
  {
    hide QuoteOpen, ScalarValue, Trim, Put, TextOf, ItemsOf;
  }

  // ---------- an edge left open, then a header ----------

  lemma HeaderAdds(m: CoreMode, r: seq<View>)
    requires FromHeader(r) && (m.UnderEdges? ==> m.open.None?)
    ensures Added(m, r).edges == Added(Nothing, r).edges && Added(m, r).faulty == Added(Nothing, r).faulty
  {
    hide CoreRun;
    if r != [] {
      var c, d := Core([], [], false, m), Core([], [], false, Nothing);
      HeaderStepFresh(m, r[0]);
      RunsAlike([], false, CoreStep(c, r[0]), CoreStep(d, r[0]), r[1..]);
      FlushesAlike([], false, CoreRun(CoreStep(c, r[0]), r[1..]), CoreRun(CoreStep(d, r[0]), r[1..]));
      RunHead(c, r);
      RunHead(d, r);
    } else {
      NoneRun(m);
    }
  }

  lemma NoneRun(m: CoreMode)
    requires m.UnderEdges? ==> m.open.None?
    ensures Added(m, []).edges == [] && !Added(m, []).faulty && Added(Nothing, []).edges == [] && !Added(Nothing, []).faulty
  {
  }

  lemma RunHead(c: Core, vs: seq<View>)
    requires vs != []
    ensures CoreRun(c, vs) == CoreRun(CoreStep(c, vs[0]), vs[1..])
  {
    hide CoreStep;
  }

  lemma HeaderStepFresh(m: CoreMode, v: View)
    requires IsHeader(v) && (m.UnderEdges? ==> m.open.None?)
    ensures var x := CoreStep(Core([], [], false, m), v);
            x.mode == HeaderMode(v) && x.edges == [] && !x.faulty
  {
    hide Put, ScalarValue, Trim, IsListField;
  }

  /** Loose lines, then the rest from a header on: what each adds. */
  lemma ThenRest(c: Core, t: seq<View>, r: seq<View>)
    requires FromHeader(r)
    ensures var d := CoreFlush(CoreRun(c, t + r));
            && d.edges == c.edges + Added(c.mode, t).edges + Added(Nothing, r).edges
            && d.faulty == (c.faulty || Added(c.mode, t).faulty || Added(Nothing, r).faulty)
            && d == CoreFlush(CoreRun(CoreFlush(CoreRun(c, t)), r))
  {
    hide CoreRun, CoreStep, CoreFlush, Added;
    RunConcat(c, t, r);
    var y := CoreRun(c, t);
    ClosedNext(y, r);
    RunAdds(c, t);
    RunAdds(CoreFlush(y), r);
    FlushedMode(y);
    HeaderAdds(CoreFlush(y).mode, r);
  }

  lemma FlushedMode(c: Core)
    ensures CoreFlush(c).mode.UnderEdges? ==> CoreFlush(c).mode.open.None?
  {
    hide Complete;
  }

  /** A key's header, its lines and the loose lines behind them add their flow edges. */
  lemma OwnAdds(h: View, ms: seq<View>, r: seq<View>)
    requires IsHeader(h) && HeaderMode(h) != UnderEdges(None) && Loose(ms) && FromHeader(r)
    ensures Added(Nothing, [h] + ms + r).edges == FlowEdges(ms) + Added(Nothing, r).edges
    ensures Added(Nothing, [h] + ms + r).faulty == Added(Nothing, r).faulty
  {
    hide CoreRun, CoreStep, CoreFlush, FlowEdges;
    var c := Core([], [], false, Nothing);
    var d := CoreStep(c, h);
    HeaderStepFresh(Nothing, h);
    HeaderModeIsFlushed(h);
    var all := [h] + ms + r;
    assert all[1..] == ms + r && all[0] == h;
    RunHead(c, all);
    ThenRest(d, ms, r);
    LooseAdds(Core([], [], false, d.mode), ms);
    assert Added(Nothing, all) == CoreFlush(CoreRun(c, all));
  }

  lemma HeaderModeIsFlushed(h: View)
    requires IsHeader(h)
    ensures HeaderMode(h).UnderEdges? ==> HeaderMode(h) == UnderEdges(None)
  {
    hide IsListField, Trim;
  }

  // ---------- what cutting a key's lines does to edges and faults ----------

  /** The block: what comes before, the key's header, its own lines, loose lines, and the rest from a header. */
  predicate Zone(k: Text, h: View, mids: seq<View>, t: seq<View>, r: seq<View>) {
    HeaderOf(h, k) && k != EDGES && Loose(mids) && Loose(t) && FromHeader(r)
  }

  lemma OwnHeaderMode(h: View, k: Text)
    requires HeaderOf(h, k) && k != EDGES
    ensures HeaderMode(h) != UnderEdges(None) && OwnMode(HeaderMode(h), k)
  {
    hide IsListField, Trim;
  }

  /** The mode a key's own lines leave behind. */
  predicate OwnMode(m: CoreMode, k: Text) {
    m.Nothing? || (m.Folds? && m.key == k) || (m.Lists? && m.key == k)
  }

  lemma LooseJoin(a: seq<View>, b: seq<View>)
    requires Loose(a) && Loose(b)
    ensures Loose(a + b)
  {
    hide IsHeader;
  }

  /** Edges and faults of the block, and of what is left once the key's lines are cut. */
  lemma CutEdges(k: Text, c: Core, h: View, mids: seq<View>, t: seq<View>, r: seq<View>)
    requires Zone(k, h, mids, t, r)
    ensures var was, now := CoreFlush(CoreRun(c, [h] + mids + t + r)), CoreFlush(CoreRun(c, t + r));
            var rest := Added(Nothing, r);
            && was.edges == c.edges + Added(c.mode, []).edges + (FlowEdges(mids) + FlowEdges(t)) + rest.edges
            && was.faulty == (c.faulty || Added(c.mode, []).faulty || rest.faulty)
            && now.edges == c.edges + Added(c.mode, t).edges + rest.edges
            && now.faulty == (c.faulty || Added(c.mode, t).faulty || rest.faulty)
  {
    hide *;
    ZoneParts(k, h, mids, t, r);
    ThenRest(c, t, r);
    LooseJoin(mids, t);
    FlowEdgesAdd(mids, t);
    ZoneRegroups([h], mids, t, r);
    OwnEdges(k, c, h, mids + t, r);
  }

  lemma ZoneParts(k: Text, h: View, mids: seq<View>, t: seq<View>, r: seq<View>)
    requires Zone(k, h, mids, t, r)
    ensures HeaderOf(h, k) && k != EDGES && Loose(mids) && Loose(t) && FromHeader(r)
  {
  }

  lemma ZoneRegroups(a: seq<View>, b: seq<View>, c: seq<View>, d: seq<View>)
    ensures a + b + c + d == a + (b + c) + d == a + ((b + c) + d)
  {
  }

  lemma OwnEdges(k: Text, c: Core, h: View, ms: seq<View>, r: seq<View>)
    requires HeaderOf(h, k) && k != EDGES && Loose(ms) && FromHeader(r)
    ensures var was, rest := CoreFlush(CoreRun(c, [h] + ms + r)), Added(Nothing, r);
            && was.edges == c.edges + Added(c.mode, []).edges + FlowEdges(ms) + rest.edges
            && was.faulty == (c.faulty || Added(c.mode, []).faulty || rest.faulty)
  {
    hide CoreRun, CoreStep, CoreFlush, FlowEdges, Added, HeaderMode, Loose, IsHeader;
    var own := [h] + ms + r;
    NothingBefore(own);
    assert own == [h] + (ms + r);
    HeaderFirst(h, ms + r);
    OwnHeaderMode(h, k);
    OwnAdds(h, ms, r);
    ThenRest(c, [], own);
    FourParts(c.edges + Added(c.mode, []).edges, FlowEdges(ms), Added(Nothing, r).edges);
  }

  lemma NothingBefore(vs: seq<View>)
    ensures [] + vs == vs
  {
  }

  lemma FourParts(a: seq<Props>, b: seq<Props>, c: seq<Props>)
    ensures a + (b + c) == a + b + c
  {
  }

  lemma HeaderFirst(h: View, rest: seq<View>)
    requires IsHeader(h)
    ensures FromHeader([h] + rest)
  {
  }

  // ---------- states a block of lines comes to ----------

  /** What every line of text is seen as: a raw value is trimmed in front, a folded text starts with ink. */
  predicate Seen(v: View) {
    && (v.KeyLine? && v.raw != [] ==> !IsWhite(v.raw[0]))
    && (v.Other? && v.folded.Some? ==> v.folded.value != [] && !IsWhite(v.folded.value[0]))
    && (v.ListLine? ==> v.key != EDGES)
  }

  predicate AllSeen(vs: seq<View>) {
    forall i | 0 <= i < |vs| :: Seen(vs[i])
  }

  /** The field under construction is there, and an open quote has been read as far as it goes. */
  ghost predicate Sound(c: Core) {
    match c.mode
    case Folds(q, raw) =>
      && q != EDGES && (raw != [] ==> !IsWhite(raw[0]))
      && exists v :: Lookup<Value>(c.fields, q) == Some(Scalar(v)) && (QuoteOpen(Trim(raw)) ==> v == ScalarValue(raw))
    case Lists(q) => q != EDGES && exists items :: Lookup<Value>(c.fields, q) == Some(List(items))
    case _ => true
  }

  lemma HeaderSound(c: Core, v: View)
    requires IsHeader(v) && Seen(v)
    ensures Sound(CoreStep(c, v))
  {
    hide CoreFlush, Put, Lookup, ScalarValue, Trim, IsListField, QuoteOpen;
    var a := CoreFlush(c);
    match v
    case ListLine(_, _) =>
    case KeyLine(q, raw) =>
      LookupPut(a.fields, q, List([]), q);
      LookupPut(a.fields, q, Scalar(ScalarValue(raw)), q);
  }

  lemma StepSound(c: Core, v: View)
    requires Sound(c) && Seen(v)
    ensures Sound(CoreStep(c, v))
  {
    hide CoreFlush, Put, Lookup, ScalarValue, Trim, IsListField, QuoteOpen, CoreFold, CoreEdgeLine;
    FlushSound(c);
    if IsHeader(v) {
      HeaderSound(c, v);
    } else if v.Other? {
      match c.mode
      case UnderEdges(_) => EdgeLineMode(c, v);
      case Lists(q) =>
        if v.item.Some? {
          LookupPut(c.fields, q, List(ItemsOf(c.fields, q) + [ScalarValue(Trim(v.item.value))]), q);
        }
      case Folds(_, _) =>
        if v.folded.Some? {
          FoldSound(c, v.folded.value);
        }
      case Nothing =>
    }
  }

  lemma FlushSound(c: Core)
    requires Sound(c)
    ensures Sound(CoreFlush(c)) && (c.mode.UnderEdges? <==> CoreFlush(c).mode.UnderEdges?)
  {
    hide Complete, Lookup;
  }

  lemma EdgeLineMode(c: Core, v: View)
    requires c.mode.UnderEdges? && v.Other?
    ensures CoreEdgeLine(c, v).mode.UnderEdges?
  {
    hide Complete, Put, ScalarValue, Trim;
  }

  lemma FoldSound(c: Core, more: Text)
    requires Sound(c) && c.mode.Folds?
    ensures Sound(CoreFold(c, more))
  {
    hide Put, Lookup, ScalarValue, Trim, QuoteOpen;
    var q, raw := c.mode.key, c.mode.raw;
    if QuoteOpen(Trim(raw)) {
      OpenIsNotEmpty(raw);
      var longer := raw + [SPACE] + Trim(more);
      LookupPut(c.fields, q, Scalar(ScalarValue(longer)), q);
      assert longer[0] == raw[0];
    } else {
      LookupPut(c.fields, q, Scalar(TextOf(c.fields, q) + [SPACE] + Trim(more)), q);
    }
  }

  lemma OpenIsNotEmpty(raw: Text)
    requires QuoteOpen(Trim(raw))
    ensures raw != []
  {
    if raw == [] {
      EmptyReadsBack();
    }
  }

  lemma {:induction false} RunSound(c: Core, vs: seq<View>)
    requires Sound(c) && AllSeen(vs)
    ensures Sound(CoreRun(c, vs))
    decreases |vs|
  {
    hide CoreStep, Sound, Seen;
    if vs != [] {
      StepSound(c, vs[0]);
      RunSound(CoreStep(c, vs[0]), vs[1..]);
    }
  }

  // ---------- lines that add to the field under construction ----------

  /** The field the next line may add to. */
  function OpenKey(m: CoreMode): Option<Text> {
    match m
    case Folds(q, _) => Some(q)
    case Lists(q) => Some(q)
    case _ => None
  }

  predicate Adds(m: CoreMode, v: View) {
    v.Other? && ((m.Folds? && v.folded.Some?) || (m.Lists? && v.item.Some?))
  }

  /** None of the lines folds onto the scalar, or is an item of the list, that stands open. */
  predicate NoneAdds(m: CoreMode, t: seq<View>) {
    forall i | 0 <= i < |t| :: !Adds(m, t[i])
  }

  /** The field has grown: a longer list, or a longer or wider text. */
  predicate Bigger(was: Value, now: Value) {
    match (was, now)
    case (Scalar(a), Scalar(b)) => Grown(a, b)
    case (List(a), List(b)) => |b| > |a|
    case _ => false
  }

  /** An open quote has gone on from `start`, whose value `was` is. */
  ghost predicate GoneOn(c: Core, was: Value) {
    match c.mode
    case Folds(_, raw) =>
      QuoteOpen(Trim(raw)) ==>
        exists start, x :: raw == start + [SPACE] + x && start != [] && !IsWhite(start[0])
                           && x != [] && !IsWhite(x[|x| - 1]) && was == Scalar(ScalarValue(start))
    case _ => true
  }

  ghost predicate HasGrown(c: Core, was: Value) {
    OpenKey(c.mode).Some? && GoneOn(c, was)
    && exists now: Value :: Lookup<Value>(c.fields, OpenKey(c.mode).value) == Some(now) && Bigger(was, now)
                            && (c.mode.Lists? <==> now.List?)
  }

  /** A line that adds nothing leaves the field and the mode. */
  lemma IdleLine(c: Core, v: View)
    requires !IsHeader(v) && !c.mode.UnderEdges? && !Adds(c.mode, v)
    ensures CoreStep(c, v).fields == c.fields && CoreStep(c, v).mode == c.mode
  {
  }

  lemma TrimOfInk(t: Text)
    requires t != [] && !IsWhite(t[0])
    ensures Trim(t) != [] && !IsWhite(Trim(t)[|Trim(t)| - 1])
  {
    TrimEndKeeps(t);
  }

  lemma ListAddition(c: Core, v: View, items: seq<Text>)
    requires c.mode.Lists? && Adds(c.mode, v) && Lookup<Value>(c.fields, c.mode.key) == Some(List(items))
    ensures var d := CoreStep(c, v);
            d.mode == c.mode && Lookup<Value>(d.fields, c.mode.key) == Some(List(items + [ScalarValue(Trim(v.item.value))]))
  {
    hide Put, Lookup, ScalarValue, Trim;
    LookupPut(c.fields, c.mode.key, List(items + [ScalarValue(Trim(v.item.value))]), c.mode.key);
  }

  lemma OpenAddition(c: Core, v: View)
    requires c.mode.Folds? && Adds(c.mode, v) && QuoteOpen(Trim(c.mode.raw))
    ensures var d, raw := CoreStep(c, v), c.mode.raw + [SPACE] + Trim(v.folded.value);
            d.mode == Folds(c.mode.key, raw) && Lookup<Value>(d.fields, c.mode.key) == Some(Scalar(ScalarValue(raw)))
  {
    hide Put, Lookup, ScalarValue, Trim, QuoteOpen;
    LookupPut(c.fields, c.mode.key, Scalar(ScalarValue(c.mode.raw + [SPACE] + Trim(v.folded.value))), c.mode.key);
  }

  lemma ClosedAddition(c: Core, v: View, a: Text)
    requires c.mode.Folds? && Adds(c.mode, v) && !QuoteOpen(Trim(c.mode.raw))
    requires Lookup<Value>(c.fields, c.mode.key) == Some(Scalar(a))
    ensures var d := CoreStep(c, v);
            d.mode == c.mode
            && Lookup<Value>(d.fields, c.mode.key) == Some(Scalar(a + [SPACE] + Trim(v.folded.value)))
  {
    hide Put, Lookup, ScalarValue, Trim, QuoteOpen;
    LookupPut(c.fields, c.mode.key, Scalar(a + [SPACE] + Trim(v.folded.value)), c.mode.key);
  }

  lemma GrowsTo(d: Core, was: Value, now: Value)
    requires OpenKey(d.mode).Some? && Lookup<Value>(d.fields, OpenKey(d.mode).value) == Some(now) && Bigger(was, now)
    requires (d.mode.Lists? <==> now.List?) && (d.mode.Folds? ==> !QuoteOpen(Trim(d.mode.raw)))
    ensures HasGrown(d, was)
  {
    hide Lookup, QuoteOpen, Trim, Bigger;
  }

  lemma OpenGrowsTo(d: Core, start: Text, x: Text)
    requires d.mode.Folds? && d.mode.raw == start + [SPACE] + x
    requires start != [] && !IsWhite(start[0]) && x != [] && !IsWhite(x[|x| - 1])
    requires Lookup<Value>(d.fields, d.mode.key) == Some(Scalar(ScalarValue(d.mode.raw)))
    ensures HasGrown(d, Scalar(ScalarValue(start)))
  {
    hide Lookup, QuoteOpen, Trim, Grown, ScalarValue;
    RawGrows(start, x);
  }

  lemma LongerText(a: Text, m: Text)
    ensures Grown(a, a + [SPACE] + m)
  {
  }

  /** A first line that adds makes the field grow. */
  lemma FirstAddition(c: Core, v: View, was: Value)
    requires Sound(c) && Seen(v) && Adds(c.mode, v) && Lookup<Value>(c.fields, OpenKey(c.mode).value) == Some(was)
    ensures HasGrown(CoreStep(c, v), was) && OpenKey(CoreStep(c, v).mode) == OpenKey(c.mode)
  {
    hide CoreStep, Lookup, ScalarValue, Trim, QuoteOpen, Grown, HasGrown;
    var d := CoreStep(c, v);
    if c.mode.Lists? {
      ListAddition(c, v, was.items);
      GrowsTo(d, was, List(was.items + [ScalarValue(Trim(v.item.value))]));
    } else {
      var raw, m := c.mode.raw, Trim(v.folded.value);
      TrimOfInk(v.folded.value);
      if QuoteOpen(Trim(raw)) {
        OpenIsNotEmpty(raw);
        OpenAddition(c, v);
        OpenGrowsTo(d, raw, m);
      } else {
        ClosedAddition(c, v, was.text);
        LongerText(was.text, m);
        GrowsTo(d, was, Scalar(was.text + [SPACE] + m));
      }
    }
  }

  lemma GrownSoFar(c: Core, was: Value) returns (now: Value)
    requires HasGrown(c, was)
    ensures OpenKey(c.mode).Some? && Lookup<Value>(c.fields, OpenKey(c.mode).value) == Some(now) && Bigger(was, now)
    ensures c.mode.Lists? <==> now.List?
  {
    hide Lookup, Bigger, GoneOn;
    now :| Lookup<Value>(c.fields, OpenKey(c.mode).value) == Some(now) && Bigger(was, now) && (c.mode.Lists? <==> now.List?);
  }

  lemma WhereGoneOn(c: Core, was: Value) returns (start: Text, x: Text)
    requires HasGrown(c, was) && c.mode.Folds? && QuoteOpen(Trim(c.mode.raw))
    ensures c.mode.raw == start + [SPACE] + x && start != [] && !IsWhite(start[0]) && x != [] && !IsWhite(x[|x| - 1])
    ensures was == Scalar(ScalarValue(start))
  {
    hide Lookup, Bigger, QuoteOpen, Trim, ScalarValue;
    start, x :| c.mode.raw == start + [SPACE] + x && start != [] && !IsWhite(start[0])
                && x != [] && !IsWhite(x[|x| - 1]) && was == Scalar(ScalarValue(start));
  }

  /** And whatever is added after it, it stays grown. */
  lemma LaterAddition(c: Core, v: View, was: Value)
    requires HasGrown(c, was) && Seen(v) && Adds(c.mode, v)
    ensures HasGrown(CoreStep(c, v), was) && OpenKey(CoreStep(c, v).mode) == OpenKey(c.mode)
  {
    hide CoreStep, Lookup, ScalarValue, Trim, QuoteOpen, Grown, HasGrown, IsWhite;
    var d := CoreStep(c, v);
    var now := GrownSoFar(c, was);
    if c.mode.Lists? {
      ListAddition(c, v, now.items);
      GrowsTo(d, was, List(now.items + [ScalarValue(Trim(v.item.value))]));
    } else {
      var raw, m := c.mode.raw, Trim(v.folded.value);
      TrimOfInk(v.folded.value);
      if QuoteOpen(Trim(raw)) {
        var start, x := WhereGoneOn(c, was);
        var longer := x + [SPACE] + m;
        assert raw + [SPACE] + m == start + [SPACE] + longer;
        OpenAddition(c, v);
        OpenGrowsTo(d, start, longer);
      } else {
        GrownMore(was.text, now.text, [SPACE] + m);
        assert now.text + [SPACE] + m == now.text + ([SPACE] + m);
        ClosedAddition(c, v, now.text);
        GrowsTo(d, was, Scalar(now.text + [SPACE] + m));
      }
    }
  }

  lemma {:induction false} StaysGrown(c: Core, t: seq<View>, was: Value)
    requires HasGrown(c, was) && Loose(t) && AllSeen(t)
    ensures HasGrown(CoreRun(c, t), was) && OpenKey(CoreRun(c, t).mode) == OpenKey(c.mode)
    decreases |t|
  {
    hide CoreStep, HasGrown, Seen, Adds;
    if t != [] {
      var v := t[0];
      assert !IsHeader(v) && Seen(v);
      GrownIsOpen(c, was);
      if Adds(c.mode, v) {
        LaterAddition(c, v, was);
      } else {
        IdleLine(c, v);
        GrownAlike(c, CoreStep(c, v), was);
      }
      StaysGrown(CoreStep(c, v), t[1..], was);
    }
  }

  lemma GrownIsOpen(c: Core, was: Value)
    requires HasGrown(c, was)
    ensures !c.mode.UnderEdges?
  {
  }

  lemma GrownAlike(c: Core, d: Core, was: Value)
    requires HasGrown(c, was) && d.fields == c.fields && d.mode == c.mode
    ensures HasGrown(d, was)
  {
  }

  lemma GrownDiffers(c: Core, was: Value)
    requires HasGrown(c, was)
    ensures Lookup<Value>(c.fields, OpenKey(c.mode).value) != Some(was)
  {
    hide Lookup;
  }

  lemma SoundField(c: Core)
    requires Sound(c) && OpenKey(c.mode).Some?
    ensures OpenKey(c.mode).value != EDGES && Lookup<Value>(c.fields, OpenKey(c.mode).value).Some?
  {
    hide Lookup;
  }

  /** Loose lines leave the open field exactly when none of them adds to it. */
  lemma {:induction false} AdditionChanges(c: Core, t: seq<View>)
    requires Sound(c) && OpenKey(c.mode).Some? && Loose(t) && AllSeen(t)
    ensures var q := OpenKey(c.mode).value;
            Lookup<Value>(CoreRun(c, t).fields, q) == Lookup(c.fields, q) <==> NoneAdds(c.mode, t)
    decreases |t|
  {
    hide CoreStep, Sound, Seen, Adds, Lookup;
    if t != [] {
      var v, rest := t[0], t[1..];
      var d := CoreStep(c, v);
      assert !IsHeader(v) && Seen(v);
      SoundField(c);
      StepSound(c, v);
      var was := Lookup<Value>(c.fields, OpenKey(c.mode).value).value;
      if Adds(c.mode, v) {
        FirstAddition(c, v, was);
        StaysGrown(d, rest, was);
        GrownDiffers(CoreRun(d, rest), was);
      } else {
        IdleLine(c, v);
        AdditionChanges(d, rest);
        assert NoneAdds(c.mode, t) <==> NoneAdds(c.mode, rest) by { NoneAddsHead(c.mode, t); }
      }
    }
  }

  lemma NoneAddsHead(m: CoreMode, t: seq<View>)
    requires t != []
    ensures NoneAdds(m, t) <==> !Adds(m, t[0]) && NoneAdds(m, t[1..])
  {
    hide Adds;
    if !Adds(m, t[0]) && NoneAdds(m, t[1..]) {
      assert forall i | 0 < i < |t| :: t[i] == t[1..][i - 1];
    }
  }

  // ---------- what cutting a key's lines does to the fields ----------

  /** The loose lines leave the field that the lines before the key stand open for: they add nothing to it, or
      it is the key itself, or a later header sets it anew. */
  predicate FieldHolds(m: CoreMode, k: Text, t: seq<View>, r: seq<View>) {
    OpenKey(m).Some? ==> OpenKey(m).value == k || NoneAdds(m, t) || HasHeaderOf(r, OpenKey(m).value)
  }

  lemma LooseHasNoHeader(vs: seq<View>, p: Text)
    requires Loose(vs)
    ensures NoHeaderOf(vs, p)
  {
  }

  lemma OwnKeepsField(k: Text, c: Core, h: View, ms: seq<View>, p: Text)
    requires HeaderOf(h, k) && k != EDGES && Loose(ms) && p != k
    ensures Lookup<Value>(CoreFlush(CoreRun(CoreStep(c, h), ms)).fields, p) == Lookup(c.fields, p)
  {
    hide Lookup, CoreStep, CoreRun, CoreFlush;
    HeaderKeepsField(p, c, h);
    OwnHeaderMode(h, k);
    HeaderModes(c, c, h);
    LooseHasNoHeader(ms, p);
    RunKeepsField(p, CoreStep(c, h), ms);
  }

  lemma ThroughOwn(c: Core, h: View, ms: seq<View>, r: seq<View>)
    requires FromHeader(r)
    ensures CoreFlush(CoreRun(c, [h] + ms + r)) == CoreFlush(CoreRun(CoreFlush(CoreRun(CoreStep(c, h), ms)), r))
  {
    hide CoreStep, CoreRun, CoreFlush, Added;
    var all := [h] + ms + r;
    assert all[0] == h && all[1..] == ms + r;
    RunHead(c, all);
    ThenRest(CoreStep(c, h), ms, r);
  }

  lemma {:induction false} CutField(k: Text, c: Core, h: View, mids: seq<View>, t: seq<View>, r: seq<View>, p: Text)
    requires Zone(k, h, mids, t, r) && Sound(c) && AllSeen(t) && p != k
    ensures var was, now := CoreFlush(CoreRun(c, [h] + mids + t + r)), CoreFlush(CoreRun(c, t + r));
            SameAt(p, now, was) <==> (OpenKey(c.mode) == Some(p) ==> FieldHolds(c.mode, k, t, r))
  {
    hide Lookup, CoreStep, CoreRun, CoreFlush, Sound, AllSeen, NoneAdds, NoHeaderOf;
    var was, now := CoreFlush(CoreRun(c, [h] + mids + t + r)), CoreFlush(CoreRun(c, t + r));
    var u, w := CoreFlush(CoreRun(CoreStep(c, h), mids + t)), CoreFlush(CoreRun(c, t));
    LooseJoin(mids, t);
    ThroughOwn(c, h, mids + t, r);
    assert [h] + mids + t + r == [h] + (mids + t) + r;
    ThenRest(c, t, r);
    OwnKeepsField(k, c, h, mids + t, p);
    if OpenKey(c.mode) != Some(p) {
      LooseHasNoHeader(t, p);
      RunKeepsField(p, c, t);
      RestSameAt(p, w, u, r);
    } else {
      SoundField(c);
      if HasHeaderOf(r, p) {
        RestSameAt(p, w, u, r);
      } else {
        RestKeepsField(p, u, r);
        RestKeepsField(p, w, r);
        FlushKeepsFields(CoreRun(c, t));
        AdditionChanges(c, t);
      }
    }
  }

  // ---------- loose lines under `edges:` ----------

  function OpenEdges(open: Option<Props>): seq<Props> {
    if open.Some? then [open.value] else []
  }

  /** Loose lines that come to stand under `edges:` and change nothing there: none opens an edge or is a fault, and
      whatever goes on with the edge left open has brought it back to what it was by the time it is closed. */
  predicate Quiet(was: Option<Props>, now: Option<Props>, t: seq<View>)
    decreases |t|
  {
    if t == [] then now == was
    else
      match t[0]
      case FlowLine(_) => now == was && Quiet(None, None, t[1..])
      case Other(open, cont, _, _, blank) =>
        if open.Some? then false
        else if now.Some? && cont.Some? then
          Quiet(was, Some(Put(now.value, BlockKey(cont.value.0), ScalarValue(Trim(cont.value.1)))), t[1..])
        else blank && Quiet(was, now, t[1..])
      case _ => false
  }

  function Opens(vs: seq<View>): nat {
    if vs == [] then 0 else (if vs[0].Other? && vs[0].open.Some? then 1 else 0) + Opens(vs[1..])
  }

  lemma AddedHead(m: CoreMode, vs: seq<View>)
    requires vs != []
    ensures var d := CoreStep(Core([], [], false, m), vs[0]);
            && Added(m, vs).edges == d.edges + Added(d.mode, vs[1..]).edges
            && Added(m, vs).faulty == (d.faulty || Added(d.mode, vs[1..]).faulty)
  {
    hide CoreStep, CoreRun, CoreFlush;
    var c := Core([], [], false, m);
    RunHead(c, vs);
    RunAdds(CoreStep(c, vs[0]), vs[1..]);
  }

  /** One loose line under `edges:`. */
  lemma LooseUnderEdges(open: Option<Props>, v: View)
    requires !IsHeader(v)
    ensures var d := CoreStep(Core([], [], false, UnderEdges(open)), v);
            && d.mode.UnderEdges?
            && match v
               case FlowLine(p) =>
                 d.mode == UnderEdges(None) && (!d.faulty ==> d.edges == OpenEdges(open) + [p])
                 && (d.faulty <==> open.Some? && !Complete(open.value))
               case Other(o, cont, _, _, blank) =>
                 if o.Some? then
                   d.mode.open.Some? && (!d.faulty ==> d.edges == OpenEdges(open))
                 else if open.Some? && cont.Some? then
                   d == Core([], [], false, UnderEdges(Some(Put(open.value, BlockKey(cont.value.0), ScalarValue(Trim(cont.value.1))))))
                 else if blank then d == Core([], [], false, UnderEdges(open))
                 else d.faulty
               case _ => true
  {
    hide Complete, Put, ScalarValue, Trim;
  }

  lemma AddedNothing(open: Option<Props>)
    ensures var a := Added(UnderEdges(open), []);
            (a.faulty <==> open.Some? && !Complete(open.value)) && (!a.faulty ==> a.edges == OpenEdges(open))
  {
    hide Complete;
  }

  /** Without a fault the edges are the one left open, the flow edges, and one for each opening line. */
  lemma {:induction false} LooseCount(open: Option<Props>, t: seq<View>)
    requires Loose(t) && !Added(UnderEdges(open), t).faulty
    ensures |Added(UnderEdges(open), t).edges| == |OpenEdges(open)| + |FlowEdges(t)| + Opens(t)
    decreases |t|
  {
    hide CoreStep, Added;
    if t == [] {
      AddedNothing(open);
    } else {
      AddedHead(UnderEdges(open), t);
      LooseUnderEdges(open, t[0]);
      LooseCount(CoreStep(Core([], [], false, UnderEdges(open)), t[0]).mode.open, t[1..]);
    }
  }

  lemma {:induction false} QuietExactly(was: Option<Props>, now: Option<Props>, t: seq<View>)
    requires Loose(t) && (was.Some? <==> now.Some?) && (was.Some? ==> Complete(was.value))
    ensures Quiet(was, now, t) <==>
            !Added(UnderEdges(now), t).faulty && Added(UnderEdges(now), t).edges == OpenEdges(was) + FlowEdges(t)
    decreases |t|
  {
    hide CoreStep, Added, Complete, Put, ScalarValue, Trim;
    if t == [] {
      AddedNothing(now);
    } else {
      var v, rest := t[0], t[1..];
      assert !IsHeader(v);
      AddedHead(UnderEdges(now), t);
      LooseUnderEdges(now, v);
      match v
      case FlowLine(p) =>
        QuietExactly(None, None, rest);
        OneMoreFlow(was, now, p, FlowEdges(rest), Added(UnderEdges(None), rest).edges);
      case Other(open, cont, _, _, blank) =>
        assert FlowEdges(t) == FlowEdges(rest);
        if open.Some? {
          if !Added(UnderEdges(now), t).faulty {
            LooseCount(now, t);
          }
        } else if now.Some? && cont.Some? {
          QuietExactly(was, Some(Put(now.value, BlockKey(cont.value.0), ScalarValue(Trim(cont.value.1)))), rest);
        } else if blank {
          QuietExactly(was, now, rest);
        }
    }
  }

  lemma OneMoreFlow(was: Option<Props>, now: Option<Props>, p: Props, flows: seq<Props>, added: seq<Props>)
    requires was.Some? <==> now.Some?
    ensures OpenEdges(now) + [p] + added == OpenEdges(was) + ([p] + flows) <==> now == was && added == flows
  {
    var a, b := OpenEdges(now) + [p] + added, OpenEdges(was) + ([p] + flows);
    var n := |OpenEdges(now)| + 1;
    if a == b {
      assert a[0] == b[0];
      assert a[n..] == added && b[n..] == flows;
    }
  }

  // ---------- exactly when a cut is harmless ----------

  /** No flow edge on the lines. */
  predicate NoFlow(vs: seq<View>) {
    forall i | 0 <= i < |vs| :: !vs[i].FlowLine?
  }

  lemma {:induction false} NoFlowEdges(vs: seq<View>)
    ensures NoFlow(vs) <==> FlowEdges(vs) == []
  {
    if vs != [] {
      NoFlowEdges(vs[1..]);
      assert vs[0].FlowLine? ==> FlowEdges(vs)[0] == vs[0].props;
      if NoFlow(vs[1..]) && !vs[0].FlowLine? {
        assert forall i | 0 < i < |vs| :: vs[i] == vs[1..][i - 1];
      }
    }
  }

  /** The edges stay: no flow edge stands among the key's lines, and loose lines that come under `edges:` are quiet.
      Were there one, the loose lines would have to make up for it, edge for edge. */
  predicate EdgesFit(m: CoreMode, mids: seq<View>, t: seq<View>) {
    if NoFlow(mids) then m.UnderEdges? ==> Quiet(m.open, m.open, t)
    else
      m.UnderEdges? && !Added(m, t).faulty && Added(m, t).edges == OpenEdges(m.open) + FlowEdges(mids) + FlowEdges(t)
  }

  /** Cutting the key's lines, read from what the line before them left open, changes nothing else. */
  predicate Harmless(m: CoreMode, k: Text, mids: seq<View>, t: seq<View>, r: seq<View>) {
    EdgesFit(m, mids, t) && FieldHolds(m, k, t, r)
  }

  lemma NotUnderEdges(m: CoreMode, t: seq<View>)
    requires Loose(t) && !m.UnderEdges?
    ensures Added(m, t).edges == FlowEdges(t) && !Added(m, t).faulty && Added(m, []).edges == [] && !Added(m, []).faulty
  {
    hide CoreRun, CoreFlush;
    LooseAdds(Core([], [], false, m), t);
    LooseAdds(Core([], [], false, m), []);
  }

  lemma EdgesFitExactly(m: CoreMode, mids: seq<View>, t: seq<View>)
    requires Loose(mids) && Loose(t) && !Added(m, []).faulty
    ensures EdgesFit(m, mids, t) <==>
            !Added(m, t).faulty && Added(m, t).edges == Added(m, []).edges + (FlowEdges(mids) + FlowEdges(t))
  {
    hide Added, FlowEdges, Quiet, Loose;
    NoFlowEdges(mids);
    var some, flows := FlowEdges(mids), FlowEdges(t);
    if m.UnderEdges? {
      AddedNothing(m.open);
      assert OpenEdges(m.open) + some + flows == OpenEdges(m.open) + (some + flows);
      if NoFlow(mids) {
        QuietExactly(m.open, m.open, t);
      }
    } else {
      NotUnderEdges(m, t);
      if NoFlow(mids) {
        assert [] + ([] + flows) == flows;
      } else {
        assert |[] + (some + flows)| == |some| + |flows|;
      }
    }
  }

  /** In a block without faults, cutting a key's lines leaves every other field and every edge if and only if the cut
      is harmless. */
  lemma {:induction false} CutExactly(k: Text, a: seq<View>, h: View, mids: seq<View>, t: seq<View>, r: seq<View>)
    requires Zone(k, h, mids, t, r) && AllSeen(a) && AllSeen(t)
    requires !Outcome(a + ([h] + mids + t + r)).faulty
    ensures SameBut(k, Outcome(a + (t + r)), Outcome(a + ([h] + mids + t + r)))
       <==> Harmless(CoreRun(START, a).mode, k, mids, t, r)
  {
    hide CoreRun, CoreFlush, Added, SameBut, FieldHolds, EdgesFit, Sound, AllSeen, SameAt, FlowEdges;
    var c := CoreRun(START, a);
    var own := [h] + mids + t + r;
    var was, now := CoreFlush(CoreRun(c, own)), CoreFlush(CoreRun(c, t + r));
    RunConcat(START, a, own);
    RunConcat(START, a, t + r);
    StartIsSound();
    RunSound(START, a);
    CutEdges(k, c, h, mids, t, r);
    EdgesFitExactly(c.mode, mids, t);
    SameMiddle(c.edges, Added(c.mode, t).edges, Added(c.mode, []).edges + (FlowEdges(mids) + FlowEdges(t)), Added(Nothing, r).edges);
    assert c.edges + (Added(c.mode, []).edges + (FlowEdges(mids) + FlowEdges(t)))
        == c.edges + Added(c.mode, []).edges + (FlowEdges(mids) + FlowEdges(t));
    SameButAt(k, now, was);
    forall p | p != k
      ensures SameAt(p, now, was) <==> (OpenKey(c.mode) == Some(p) ==> FieldHolds(c.mode, k, t, r))
    {
      CutField(k, c, h, mids, t, r, p);
    }
    FieldHoldsAtAll(c.mode, k, t, r);
  }

  lemma StartIsSound()
    ensures Sound(START)
  {
  }

  lemma FieldHoldsAtAll(m: CoreMode, k: Text, t: seq<View>, r: seq<View>)
    ensures OpenKey(m).None? || OpenKey(m) == Some(k) ==> FieldHolds(m, k, t, r)
  {
    hide NoneAdds, NoHeaderOf;
  }

  lemma SameMiddle(a: seq<Props>, b: seq<Props>, c: seq<Props>, d: seq<Props>)
    ensures a + b + d == a + c + d <==> b == c
  {
    var x, y := a + b + d, a + c + d;
    if x == y {
      assert |b| == |c|;
      assert x[|a|..|a| + |b|] == b && y[|a|..|a| + |c|] == c;
    }
  }

  // ---------- the key's new line ----------

  /** The value a header gives its field. */
  function ValueOf(h: View): Value
    requires IsHeader(h)
  {
    match h
    case ListLine(_, items) => List(items)
    case KeyLine(k, raw) => if IsListField(k) && Trim(raw) == [] then List([]) else Scalar(ScalarValue(raw))
    case _ => List([])
  }

  lemma HeaderSetsField(c: Core, h: View)
    requires IsHeader(h) && h.key != EDGES
    ensures Lookup<Value>(CoreStep(c, h).fields, h.key) == Some(ValueOf(h))
  {
    hide Put, Lookup, ScalarValue, Trim, IsListField, Complete;
    LookupPut(CoreFlush(c).fields, h.key, ValueOf(h), h.key);
  }

  /** The loose lines that come to stand behind the key's line add nothing to its value. */
  predicate KeepsValue(h: View, t: seq<View>)
    requires IsHeader(h)
  {
    NoneAdds(HeaderMode(h), t)
  }

  /** With no later header of it, a key has the value of its line exactly when no loose line behind adds to it. */
  lemma {:induction false} ValueExactly(k: Text, a: seq<View>, h: View, t: seq<View>, r: seq<View>)
    requires Zone(k, h, [], t, r) && NoHeaderOf(r, k) && Seen(h) && AllSeen(t)
    ensures Lookup<Value>(Outcome(a + ([h] + t + r)).fields, k) == Some(ValueOf(h)) <==> KeepsValue(h, t)
  {
    hide CoreStep, CoreRun, CoreFlush, Sound, AllSeen, Lookup, ValueOf, NoneAdds, Seen, NoHeaderOf;
    var c := CoreRun(START, a);
    var d := CoreStep(c, h);
    RunConcat(START, a, [h] + t + r);
    ThroughOwn(c, h, t, r);
    var u := CoreFlush(CoreRun(d, t));
    RestKeepsField(k, u, r);
    FlushKeepsFields(CoreRun(d, t));
    HeaderSound(c, h);
    HeaderSetsField(c, h);
    HeaderModes(c, c, h);
    OwnHeaderMode(h, k);
    if OpenKey(d.mode).Some? {
      AdditionChanges(d, t);
    } else {
      IdleMode(d, t);
      NothingAdds(d.mode, t);
    }
  }

  lemma {:induction false} IdleMode(c: Core, t: seq<View>)
    requires c.mode.Nothing? && Loose(t)
    ensures CoreRun(c, t).fields == c.fields
    decreases |t|
  {
    hide CoreStep;
    if t != [] {
      IdleLine(c, t[0]);
      IdleMode(CoreStep(c, t[0]), t[1..]);
    }
  }

  lemma NothingAdds(m: CoreMode, t: seq<View>)
    requires m.Nothing?
    ensures NoneAdds(m, t)
  {
  }

  lemma NoHeaderNoField(vs: seq<View>, k: Text)
    requires NoHeaderOf(vs, k)
    ensures Lookup<Value>(Outcome(vs).fields, k) == None
  {
    hide CoreFlush, CoreRun;
    RunKeepsField(k, START, vs);
  }

  /** With another line for the key in place of its old ones, everything else stays exactly when no flow edge stood
      among them. */
  lemma {:induction false} ReplacedExactly(k: Text, a: seq<View>, h: View, mids: seq<View>, line: View, t: seq<View>, r: seq<View>)
    requires Zone(k, h, mids, t, r) && HeaderOf(line, k)
    requires !Outcome(a + ([h] + mids + t + r)).faulty
    ensures SameBut(k, Outcome(a + ([line] + t + r)), Outcome(a + ([h] + mids + t + r))) <==> NoFlow(mids)
    ensures var was, now := Outcome(a + ([h] + mids + t + r)), Outcome(a + ([line] + t + r));
            !now.faulty && |was.edges| == |now.edges| + |FlowEdges(mids)|
  {
    hide CoreRun, CoreFlush, CoreStep, Added, SameBut, SameAt, FlowEdges, HeaderOf;
    var c := CoreRun(START, a);
    var own, mine := [h] + mids + t + r, [line] + t + r;
    var was, now := CoreFlush(CoreRun(c, own)), CoreFlush(CoreRun(c, mine));
    RunConcat(START, a, own);
    RunConcat(START, a, mine);
    CutEdges(k, c, h, mids, t, r);
    CutEdges(k, c, line, [], t, r);
    assert [line] + [] + t + r == mine;
    NoFlowEdges(mids);
    NoFlowEdges([]);
    var front, flows, rest := c.edges + Added(c.mode, []).edges, FlowEdges(t), Added(Nothing, r).edges;
    SameMiddle(front, [] + flows, FlowEdges(mids) + flows, rest);
    if [] + flows == FlowEdges(mids) + flows {
      assert |FlowEdges(mids)| == 0;
    }
    SameButAt(k, now, was);
    forall p | p != k
      ensures SameAt(p, now, was)
    {
      ReplacedField(k, c, h, mids, line, t, r, p);
    }
  }

  lemma ReplacedField(k: Text, c: Core, h: View, mids: seq<View>, line: View, t: seq<View>, r: seq<View>, p: Text)
    requires Zone(k, h, mids, t, r) && HeaderOf(line, k) && p != k
    ensures SameAt(p, CoreFlush(CoreRun(c, [line] + t + r)), CoreFlush(CoreRun(c, [h] + mids + t + r)))
  {
    hide CoreRun, CoreFlush, CoreStep, Lookup, HeaderOf;
    LooseJoin(mids, t);
    ThroughOwn(c, h, mids + t, r);
    assert [h] + mids + t + r == [h] + (mids + t) + r;
    ThroughOwn(c, line, t, r);
    OwnKeepsField(k, c, h, mids + t, p);
    OwnKeepsField(k, c, line, t, p);
    RestSameAt(p, CoreFlush(CoreRun(CoreStep(c, line), t)), CoreFlush(CoreRun(CoreStep(c, h), mids + t)), r);
  }

  /** `edges` is never a field. */
  lemma {:induction false} NoEdgesField(c: Core, vs: seq<View>)
    requires AllSeen(vs) && OtherKey(c.mode, EDGES) && Lookup<Value>(c.fields, EDGES) == None
    ensures var d := CoreRun(c, vs); OtherKey(d.mode, EDGES) && Lookup<Value>(d.fields, EDGES) == None
    decreases |vs|
  {
    hide CoreStep, Lookup, OtherKey;
    if vs != [] {
      var v := vs[0];
      assert Seen(v);
      if HeaderOf(v, EDGES) {
        EdgesHeaderKeeps(c, v);
      } else {
        StepKeepsField(EDGES, c, v);
      }
      NoEdgesField(CoreStep(c, v), vs[1..]);
    }
  }

  lemma EdgesHeaderKeeps(c: Core, v: View)
    requires v.KeyLine? && v.key == EDGES
    ensures CoreStep(c, v).fields == c.fields && OtherKey(CoreStep(c, v).mode, EDGES)
  {
    hide Complete;
  }

  lemma OutcomeHasNoEdgesField(vs: seq<View>)
    requires AllSeen(vs)
    ensures Lookup<Value>(Outcome(vs).fields, EDGES) == None
  {
    hide CoreRun, CoreFlush, Lookup;
    NothingLookedUp();
    NoEdgesField(START, vs);
    FlushKeepsFields(CoreRun(START, vs));
  }

  lemma NothingLookedUp()
    ensures Lookup<Value>([], EDGES) == None
  {
  }
}
