/** A key's ranges cut out of a block, one after the other, and its new line put in: exactly when the rest stays
    (`lib/kernel/frontmatter.js`). */
module FrontmatterRanges {
  import opened Common
  import opened ContentText
  import opened FrontmatterScalar
  import opened FrontmatterLines
  import opened FrontmatterLexer
  import opened FrontmatterCore
  import opened FrontmatterEdit
  import opened FrontmatterCut

  // ---------- ranges, and what is left without them ----------

  predicate InOrder(own: seq<Entry>) {
    && (forall j | 0 <= j < |own| :: own[j].start < own[j].end)
    && (forall j | 0 <= j < |own| - 1 :: own[j].end <= own[j + 1].start)
  }

  /** Ranges in order among `n` lines. */
  predicate Within(own: seq<Entry>, n: nat) {
    InOrder(own) && (own != [] ==> own[|own| - 1].end <= n)
  }

  lemma {:induction false} EarlierRanges(own: seq<Entry>, n: nat)
    requires InOrder(own) && n < |own|
    ensures forall j | 0 <= j < n :: own[j].end <= own[n].start
  {
    if n > 0 {
      EarlierRanges(own, n - 1);
    }
  }

  lemma WithinFront(own: seq<Entry>, n: nat)
    requires Within(own, n) && own != []
    ensures var e := own[|own| - 1]; e.start < e.end <= n && Within(own[..|own| - 1], e.start)
    ensures forall j | 0 <= j < |own| :: own[j].end <= n
  {
    EarlierRanges(own, |own| - 1);
  }

  /** The lines without the given ranges, the last range first. */
  function Spliced<T>(s: seq<T>, own: seq<Entry>): seq<T>
    requires Within(own, |s|)
    decreases |own|
  {
    if own == [] then s
    else
      WithinFront(own, |s|);
      Spliced(Cut(s, own[|own| - 1].start, own[|own| - 1].end), own[..|own| - 1])
  }

  /** The lines with `line` in the place of the first range, and without the others. */
  function Edited<T>(s: seq<T>, own: seq<Entry>, line: Option<T>): seq<T>
    requires Within(own, |s|) && own != []
    decreases |own|
  {
    WithinFront(own, |s|);
    var e := own[|own| - 1];
    if |own| == 1 then s[..e.start] + OneLineOf(line) + s[e.end..]
    else Edited(Cut(s, e.start, e.end), own[..|own| - 1], line)
  }

  function OneLineOf<T>(line: Option<T>): seq<T> {
    if line.Some? then [line.value] else []
  }

  /** The edit of the source: cut the ranges, then put the line where the first one stood. */
  lemma {:induction false} SplicedThenSet<T>(s: seq<T>, own: seq<Entry>, line: Option<T>)
    requires Within(own, |s|) && own != []
    ensures var left, p := Spliced(s, own), own[0].start;
            p <= |left| && p <= |s| && left[..p] == s[..p] && Edited(s, own, line) == left[..p] + OneLineOf(line) + left[p..]
    decreases |own|
  {
    WithinFront(own, |s|);
    var e := own[|own| - 1];
    var cut, init := Cut(s, e.start, e.end), own[..|own| - 1];
    if |own| == 1 {
      assert Spliced(s, own) == cut;
    } else {
      SplicedThenSet(cut, init, line);
      WithinFront(init, e.start);
      assert init[0] == own[0] && cut[..own[0].start] == s[..own[0].start];
    }
  }

  /** Lines behind all ranges stay behind. */
  lemma {:induction false} EditedFront<T>(x: seq<T>, y: seq<T>, own: seq<Entry>, line: Option<T>)
    requires Within(own, |x|) && own != []
    ensures Within(own, |x + y|) && Edited(x + y, own, line) == Edited(x, own, line) + y
    decreases |own|
  {
    WithinFront(own, |x|);
    var e := own[|own| - 1];
    if |own| == 1 {
      assert (x + y)[..e.start] == x[..e.start] && (x + y)[e.end..] == x[e.end..] + y;
    } else {
      assert Cut(x + y, e.start, e.end) == Cut(x, e.start, e.end) + y;
      EditedFront(Cut(x, e.start, e.end), y, own[..|own| - 1], line);
    }
  }

  // ---------- a key's ranges ----------

  /** A header of the key and lines up to, at most, the next header. */
  predicate OwnRange(vs: seq<View>, k: Text, e: Entry) {
    e.start < e.end <= |vs| && HeaderOf(vs[e.start], k) && Loose(vs[e.start + 1..e.end])
  }

  ghost predicate OwnRanges(vs: seq<View>, k: Text, own: seq<Entry>) {
    && Within(own, |vs|) && AllSeen(vs)
    && forall j | 0 <= j < |own| :: OwnRange(vs, k, own[j])
  }

  /** Every header of the key begins a range. */
  ghost predicate HoldAll(vs: seq<View>, k: Text, own: seq<Entry>) {
    forall i | 0 <= i < |vs| && HeaderOf(vs[i], k) :: exists j :: 0 <= j < |own| && own[j].start == i
  }

  /** No flow edge stands among the key's lines. */
  ghost predicate FlowFree(vs: seq<View>, own: seq<Entry>)
    requires Within(own, |vs|)
  {
    forall j | 0 <= j < |own| && own[j].end <= |vs| :: NoFlow(vs[own[j].start + 1..own[j].end])
  }

  function NextHeader(vs: seq<View>, i: nat): (n: nat)
    requires i <= |vs|
    ensures i <= n <= |vs| && (n < |vs| ==> IsHeader(vs[n])) && forall j | i <= j < n :: !IsHeader(vs[j])
    decreases |vs| - i
  {
    if i == |vs| || IsHeader(vs[i]) then i else NextHeader(vs, i + 1)
  }

  /** The loose lines behind a range. */
  function LooseBehind(vs: seq<View>, e: Entry): seq<View>
    requires e.end <= |vs|
  {
    vs[e.end..NextHeader(vs, e.end)]
  }

  function Rest(vs: seq<View>, e: Entry): seq<View>
    requires e.end <= |vs|
  {
    vs[NextHeader(vs, e.end)..]
  }

  /** Cutting the range is harmless, read from what the lines before it left open. */
  predicate CutFits(vs: seq<View>, k: Text, e: Entry)
    requires e.start < e.end <= |vs|
  {
    Harmless(At(vs, e.start).mode, k, vs[e.start + 1..e.end], LooseBehind(vs, e), Rest(vs, e))
  }

  /** Putting the key's line in its place keeps every edge, and the line its value. */
  predicate SetFits(vs: seq<View>, line: View, e: Entry)
    requires e.start < e.end <= |vs| && IsHeader(line)
  {
    NoFlow(vs[e.start + 1..e.end]) && KeepsValue(line, LooseBehind(vs, e))
  }

  predicate FirstFits(vs: seq<View>, k: Text, line: Option<View>, e: Entry)
    requires e.start < e.end <= |vs| && (line.Some? ==> IsHeader(line.value))
  {
    if line.Some? then SetFits(vs, line.value, e) else CutFits(vs, k, e)
  }

  /** The whole edit: the last range first, as the source cuts them, each judged on the lines as they are then. */
  predicate AllFit(vs: seq<View>, k: Text, own: seq<Entry>, line: Option<View>)
    requires Within(own, |vs|) && own != [] && (line.Some? ==> IsHeader(line.value))
    decreases |own|
  {
    WithinFront(own, |vs|);
    var e := own[|own| - 1];
    if |own| == 1 then FirstFits(vs, k, line, e)
    else CutFits(vs, k, e) && AllFit(Cut(vs, e.start, e.end), k, own[..|own| - 1], line)
  }

  /** The key is as asked and nothing else has changed. */
  ghost predicate Right(k: Text, line: Option<View>, was: Core, now: Core)
    requires line.Some? ==> IsHeader(line.value)
  {
    && SameBut(k, now, was)
    && Lookup<Value>(now.fields, k) == if line.Some? then Some(ValueOf(line.value)) else None
  }

  predicate LineFor(k: Text, line: Option<View>) {
    line.Some? ==> HeaderOf(line.value, k) && Seen(line.value)
  }

  // ---------- slices that stay ----------

  lemma CutSlice(vs: seq<View>, s: nat, e: nat, i: nat, j: nat)
    requires i <= j <= s <= e <= |vs|
    ensures Cut(vs, s, e)[i..j] == vs[i..j]
  {
  }

  lemma PrefixSlice(vs: seq<View>, p: nat, i: nat, j: nat)
    requires i <= j <= p <= |vs|
    ensures vs[..p][i..j] == vs[i..j]
  {
  }

  lemma CutRange(vs: seq<View>, k: Text, e: Entry, s: nat, t: nat)
    requires OwnRange(vs, k, e) && e.end <= s <= t <= |vs|
    ensures OwnRange(Cut(vs, s, t), k, e) && Cut(vs, s, t)[e.start + 1..e.end] == vs[e.start + 1..e.end]
  {
    hide HeaderOf, Loose;
    CutSlice(vs, s, t, e.start + 1, e.end);
    assert Cut(vs, s, t)[e.start] == vs[e.start];
  }

  lemma PrefixRange(vs: seq<View>, k: Text, e: Entry, p: nat)
    requires OwnRange(vs, k, e) && e.end <= p <= |vs|
    ensures OwnRange(vs[..p], k, e) && vs[..p][e.start + 1..e.end] == vs[e.start + 1..e.end]
  {
    hide HeaderOf, Loose;
    PrefixSlice(vs, p, e.start + 1, e.end);
  }

  lemma CutSeen(vs: seq<View>, s: nat, e: nat)
    requires s <= e <= |vs| && AllSeen(vs)
    ensures AllSeen(Cut(vs, s, e)) && AllSeen(vs[..s]) && AllSeen(vs[s..e])
  {
    hide Seen;
  }

  // ---------- one range ----------

  lemma RangeZone(vs: seq<View>, k: Text, e: Entry)
    requires OwnRange(vs, k, e) && k != EDGES && AllSeen(vs)
    ensures Zone(k, vs[e.start], vs[e.start + 1..e.end], LooseBehind(vs, e), Rest(vs, e))
    ensures var a, own := vs[..e.start], [vs[e.start]] + vs[e.start + 1..e.end] + LooseBehind(vs, e) + Rest(vs, e);
            && vs == a + own && AllSeen(a) && AllSeen(LooseBehind(vs, e))
            && Cut(vs, e.start, e.end) == a + (LooseBehind(vs, e) + Rest(vs, e))
  {
    hide Seen, HeaderOf, NextHeader;
    var n := NextHeader(vs, e.end);
    CutSeen(vs, e.start, n);
    CutSeen(vs, e.end, n);
    RangeParts(vs, e.start, e.end, n);
    LooseUpTo(vs, e.end);
  }

  lemma LooseUpTo(vs: seq<View>, i: nat)
    requires i <= |vs|
    ensures Loose(vs[i..NextHeader(vs, i)]) && FromHeader(vs[NextHeader(vs, i)..])
  {
    hide IsHeader;
    var t := vs[i..NextHeader(vs, i)];
    assert forall j | 0 <= j < |t| :: t[j] == vs[i + j];
  }

  lemma RangeParts(vs: seq<View>, s: nat, e: nat, n: nat)
    requires s < e <= n <= |vs|
    ensures vs == vs[..s] + ([vs[s]] + vs[s + 1..e] + vs[e..n] + vs[n..])
    ensures Cut(vs, s, e) == vs[..s] + (vs[e..n] + vs[n..]) && vs[e..] == vs[e..n] + vs[n..]
  {
  }

  lemma CutVsExactly(vs: seq<View>, k: Text, e: Entry)
    requires OwnRange(vs, k, e) && k != EDGES && AllSeen(vs) && !Outcome(vs).faulty
    ensures SameBut(k, Outcome(Cut(vs, e.start, e.end)), Outcome(vs)) <==> CutFits(vs, k, e)
  {
    hide Outcome, SameBut, Harmless, Zone, AllSeen, HeaderOf, Loose, CoreRun;
    RangeZone(vs, k, e);
    AtIs(vs, e.start);
    CutExactly(k, vs[..e.start], vs[e.start], vs[e.start + 1..e.end], LooseBehind(vs, e), Rest(vs, e));
  }

  /** Edges only come in when the range holds none, and a fault comes from under `edges:`. */
  lemma CutCounts(vs: seq<View>, k: Text, e: Entry)
    requires OwnRange(vs, k, e) && k != EDGES && AllSeen(vs) && !Outcome(vs).faulty
    ensures Outcome(Cut(vs, e.start, e.end)).faulty ==> At(vs, e.start).mode.UnderEdges?
    ensures !Outcome(Cut(vs, e.start, e.end)).faulty && NoFlow(vs[e.start + 1..e.end]) ==>
              |Outcome(Cut(vs, e.start, e.end)).edges| >= |Outcome(vs).edges|
  {
    hide CoreRun, CoreFlush, Zone, AllSeen, HeaderOf, FlowEdges, Added;
    var a, h, mids, t, r := vs[..e.start], vs[e.start], vs[e.start + 1..e.end], LooseBehind(vs, e), Rest(vs, e);
    RangeZone(vs, k, e);
    ZoneParts(k, h, mids, t, r);
    AtIs(vs, e.start);
    var c := CoreRun(START, a);
    RunConcat(START, a, [h] + mids + t + r);
    RunConcat(START, a, t + r);
    CutEdges(k, c, h, mids, t, r);
    NoFlowEdges(mids);
    if c.mode.UnderEdges? {
      AddedNothing(c.mode.open);
      if !Added(c.mode, t).faulty {
        LooseCount(c.mode.open, t);
      }
    } else {
      NotUnderEdges(c.mode, t);
    }
  }

  lemma {:induction false} SetVsExactly(vs: seq<View>, k: Text, e: Entry, line: View)
    requires OwnRange(vs, k, e) && k != EDGES && AllSeen(vs) && !Outcome(vs).faulty && HeaderOf(line, k) && Seen(line)
    ensures var now := Outcome(vs[..e.start] + [line] + vs[e.end..]);
            && (SameBut(k, now, Outcome(vs)) <==> NoFlow(vs[e.start + 1..e.end]))
            && !now.faulty && (NoFlow(vs[e.start + 1..e.end]) ==> |now.edges| == |Outcome(vs).edges|)
            && (HoldAll(vs, k, [e]) ==> (Lookup<Value>(now.fields, k) == Some(ValueOf(line)) <==> KeepsValue(line, LooseBehind(vs, e))))
  {
    hide *;
    InRange(vs, k, e);
    var a, h, t, r := vs[..e.start], vs[e.start], LooseBehind(vs, e), Rest(vs, e);
    var mids := vs[e.start + 1..e.end];
    RangeZone(vs, k, e);
    ZoneParts(k, h, mids, t, r);
    SetParts(vs, e, line);
    ReplacedExactly(k, a, h, mids, line, t, r);
    NoFlowEdges(mids);
    if HoldAll(vs, k, [e]) {
      NoneAfter(vs, k, e);
      SetZone(k, line, t, r);
      ValueExactly(k, a, line, t, r);
    }
  }

  lemma InRange(vs: seq<View>, k: Text, e: Entry)
    requires OwnRange(vs, k, e)
    ensures e.start < e.end <= |vs|
  {
  }

  lemma SetParts(vs: seq<View>, e: Entry, line: View)
    requires e.start < e.end <= |vs|
    ensures vs[..e.start] + [line] + vs[e.end..] == vs[..e.start] + ([line] + LooseBehind(vs, e) + Rest(vs, e))
  {
    hide NextHeader;
    assert vs[e.end..] == LooseBehind(vs, e) + Rest(vs, e);
  }

  lemma SetZone(k: Text, line: View, t: seq<View>, r: seq<View>)
    requires HeaderOf(line, k) && k != EDGES && Loose(t) && FromHeader(r)
    ensures Zone(k, line, [], t, r)
  {
  }

  lemma NoneAfter(vs: seq<View>, k: Text, e: Entry)
    requires e.start < e.end <= |vs| && HoldAll(vs, k, [e])
    ensures NoHeaderOf(Rest(vs, e), k)
    ensures NoHeaderOf(Cut(vs, e.start, e.end), k)
  {
    hide HeaderOf;
    var r, cut := Rest(vs, e), Cut(vs, e.start, e.end);
    forall i | 0 <= i < |r|
      ensures !HeaderOf(r[i], k)
    {
      assert r[i] == vs[NextHeader(vs, e.end) + i];
    }
    forall i | 0 <= i < |cut|
      ensures !HeaderOf(cut[i], k)
    {
      assert cut[i] == vs[if i < e.start then i else i + e.end - e.start];
    }
  }

  lemma FirstExactly(vs: seq<View>, k: Text, e: Entry, line: Option<View>)
    requires OwnRange(vs, k, e) && k != EDGES && AllSeen(vs) && !Outcome(vs).faulty && HoldAll(vs, k, [e]) && LineFor(k, line)
    ensures Right(k, line, Outcome(vs), Outcome(vs[..e.start] + OneLineOf(line) + vs[e.end..])) <==> FirstFits(vs, k, line, e)
  {
    hide Outcome, SameBut, CutFits, AllSeen, HeaderOf, Seen, KeepsValue, ValueOf, Lookup, HoldAll, Loose;
    if line.Some? {
      SetVsExactly(vs, k, e, line.value);
    } else {
      CutVsExactly(vs, k, e);
      NoneAfter(vs, k, e);
      NoHeaderNoField(Cut(vs, e.start, e.end), k);
      assert vs[..e.start] + OneLineOf(line) + vs[e.end..] == Cut(vs, e.start, e.end);
    }
  }

  // ---------- the ranges that are left ----------

  /** Cutting the last range leaves the earlier ones as they are. */
  lemma RangesLeft(vs: seq<View>, k: Text, own: seq<Entry>)
    requires OwnRanges(vs, k, own) && own != []
    ensures var e, init := own[|own| - 1], own[..|own| - 1];
            && OwnRange(vs, k, e) && Within(init, e.start)
            && OwnRanges(Cut(vs, e.start, e.end), k, init)
            && (FlowFree(vs, own) ==> FlowFree(Cut(vs, e.start, e.end), init) && NoFlow(vs[e.start + 1..e.end]))
            && (HoldAll(vs, k, own) ==> HoldAll(Cut(vs, e.start, e.end), k, init))
  {
    hide OwnRange, AllSeen, NoFlow, HeaderOf;
    WithinFront(own, |vs|);
    var n := |own| - 1;
    var e, init := own[n], own[..n];
    var cut := Cut(vs, e.start, e.end);
    EarlierRanges(own, n);
    assert OwnRange(vs, k, own[n]);
    InRange(vs, k, e);
    CutSeen(vs, e.start, e.end);
    forall j | 0 <= j < n
      ensures OwnRange(cut, k, init[j]) && init[j].end <= |cut| && cut[init[j].start + 1..init[j].end] == vs[own[j].start + 1..own[j].end]
    {
      assert OwnRange(vs, k, own[j]) && own[j].end <= e.start;
      CutRange(vs, k, own[j], e.start, e.end);
    }
    if HoldAll(vs, k, own) {
      forall i | 0 <= i < |cut| && HeaderOf(cut[i], k)
        ensures exists j :: 0 <= j < n && init[j].start == i
      {
        HeaderLeft(vs, k, own, i);
      }
    }
  }

  lemma HeaderLeft(vs: seq<View>, k: Text, own: seq<Entry>, i: nat)
    requires OwnRanges(vs, k, own) && own != [] && HoldAll(vs, k, own)
    requires var e := own[|own| - 1]; e.start < e.end <= |vs| && i < |Cut(vs, e.start, e.end)| && HeaderOf(Cut(vs, e.start, e.end)[i], k)
    ensures var init := own[..|own| - 1]; exists j :: 0 <= j < |init| && init[j].start == i
  {
    hide HeaderOf, OwnRange, Seen;
    var n := |own| - 1;
    var e := own[n];
    EarlierRanges(own, n);
    var at := if i < e.start then i else i + e.end - e.start;
    assert Cut(vs, e.start, e.end)[i] == vs[at];
    var j :| 0 <= j < |own| && own[j].start == at;
    assert j < n ==> own[j].end <= e.start && own[j].start < own[j].end;
    assert own[..n][j].start == i;
  }

  lemma SameButChains(k: Text, a: Core, b: Core, c: Core)
    requires SameBut(k, b, c)
    ensures SameBut(k, a, b) <==> SameBut(k, a, c)
    ensures b.faulty == c.faulty
  {
    hide Lookup;
  }

  /** The edit is right whenever every cut fits. */
  lemma {:induction false} FittingEditActs(vs: seq<View>, k: Text, own: seq<Entry>, line: Option<View>)
    requires OwnRanges(vs, k, own) && own != [] && HoldAll(vs, k, own) && k != EDGES && LineFor(k, line)
    requires !Outcome(vs).faulty && AllFit(vs, k, own, line)
    ensures Right(k, line, Outcome(vs), Outcome(Edited(vs, own, line)))
    decreases |own|
  {
    hide Outcome, SameBut, CutFits, FirstFits, HoldAll, OwnRange, FlowFree, Lookup, ValueOf;
    RangesLeft(vs, k, own);
    var e := own[|own| - 1];
    if |own| == 1 {
      assert own == [e];
      FirstExactly(vs, k, e, line);
    } else {
      var cut := Cut(vs, e.start, e.end);
      CutVsExactly(vs, k, e);
      SameButChains(k, Outcome(Edited(vs, own, line)), Outcome(cut), Outcome(vs));
      FittingEditActs(cut, k, own[..|own| - 1], line);
    }
  }

  // ---------- the mode before a range ----------

  /** The last header before line `i`, or -1. */
  function LastHeader(vs: seq<View>, i: nat): (p: int)
    requires i <= |vs|
    ensures -1 <= p < i && (p >= 0 ==> IsHeader(vs[p])) && forall j | p < j < i :: !IsHeader(vs[j])
  {
    if i == 0 then -1 else if IsHeader(vs[i - 1]) then i - 1 else LastHeader(vs, i - 1)
  }

  lemma LooseMode(c: Core, v: View)
    requires !IsHeader(v)
    ensures OpenKey(CoreStep(c, v).mode) == OpenKey(c.mode) && (CoreStep(c, v).mode.UnderEdges? <==> c.mode.UnderEdges?)
  {
    hide Complete, Put, ScalarValue, Trim, QuoteOpen, TextOf, ItemsOf;
  }

  /** The last header before a line makes the mode there. */
  lemma {:induction false} ModeFromHeader(vs: seq<View>, i: nat)
    requires i <= |vs|
    ensures var p, m := LastHeader(vs, i), At(vs, i).mode;
            if p < 0 then OpenKey(m).None? && !m.UnderEdges?
            else OpenKey(m) == OpenKey(HeaderMode(vs[p])) && (m.UnderEdges? <==> HeaderMode(vs[p]).UnderEdges?)
  {
    hide CoreRun, CoreStep, HeaderMode;
    if i == 0 {
      AtStart(vs);
    } else {
      AtNext(vs, i - 1);
      if IsHeader(vs[i - 1]) {
        HeaderModes(At(vs, i - 1), At(vs, i - 1), vs[i - 1]);
      } else {
        ModeFromHeader(vs, i - 1);
        LooseMode(At(vs, i - 1), vs[i - 1]);
      }
    }
  }

  lemma AtStart(vs: seq<View>)
    ensures At(vs, 0) == START
  {
    assert vs[..0] == [];
  }

  /** What a cut can spoil lies behind a header of another key, and that behind the earlier ranges. */
  lemma SpoiltBehind(vs: seq<View>, k: Text, own: seq<Entry>) returns (p: nat)
    requires OwnRanges(vs, k, own) && |own| > 1 && k != EDGES
    requires var m := At(vs, own[|own| - 1].start).mode; m.UnderEdges? || (OpenKey(m).Some? && OpenKey(m).value != k)
    ensures p < own[|own| - 1].start && IsHeader(vs[p]) && Within(own[..|own| - 1], p)
  {
    hide HeaderMode, HeaderOf, Seen, At, Loose, IsHeader;
    var n := |own| - 1;
    var e, f := own[n], own[n - 1];
    WithinFront(own, |vs|);
    assert OwnRange(vs, k, own[n]) && OwnRange(vs, k, own[n - 1]);
    EarlierRanges(own, n);
    ModeFromHeader(vs, e.start);
    p := LastHeader(vs, e.start);
    if HeaderOf(vs[p], k) {
      OwnHeaderMode(vs[p], k);
      HeaderModeIsFlushed(vs[p]);
    }
    OwnIsHeader(vs[f.start], k);
    if f.start < p < f.end {
      LooseAt(vs, f.start + 1, f.end, p);
    }
    EarlierWithin(own, n, p);
  }

  lemma LooseAt(vs: seq<View>, lo: nat, hi: nat, i: nat)
    requires lo <= i < hi <= |vs| && Loose(vs[lo..hi])
    ensures !IsHeader(vs[i])
  {
    hide IsHeader;
    assert vs[lo..hi][i - lo] == vs[i];
  }

  lemma OwnIsHeader(v: View, k: Text)
    requires HeaderOf(v, k)
    ensures IsHeader(v)
  {
  }

  lemma EarlierWithin(own: seq<Entry>, n: nat, p: nat)
    requires InOrder(own) && 0 < n < |own| && own[n - 1].end <= p
    ensures Within(own[..n], p)
  {
  }

  // ---------- what is spoilt stays so ----------

  /** The prefix decides no more than what it comes to. */
  lemma PrefixThen(a: seq<View>, z: seq<View>)
    requires FromHeader(z)
    ensures var was := Outcome(a + z);
            && was == CoreFlush(CoreRun(Outcome(a), z))
            && was.edges == Outcome(a).edges + Added(Nothing, z).edges
            && was.faulty == (Outcome(a).faulty || Added(Nothing, z).faulty)
  {
    hide CoreRun, CoreFlush, CoreStep;
    ThenRest(START, a, z);
    assert Added(Nothing, a) == Outcome(a);
  }

  /** The two tails head the same fields, but for `k`. */
  ghost predicate HeadAlike(k: Text, x: seq<View>, y: seq<View>) {
    forall p | p != k :: HasHeaderOf(x, p) <==> HasHeaderOf(y, p)
  }

  /** A field that ends otherwise behind the one prefix does so behind the other. */
  lemma {:induction false} FieldDiffers(k: Text, a: seq<View>, b: seq<View>, x: seq<View>, y: seq<View>, p: Text)
    requires FromHeader(x) && FromHeader(y) && HeadAlike(k, x, y) && p != k && p != EDGES
    requires !SameAt(p, Outcome(a + x), Outcome(a + y))
    ensures !SameAt(p, Outcome(b + x), Outcome(a + y))
  {
    hide Outcome, Added, NoHeaderOf, FromHeader, CoreRun, CoreFlush;
    PrefixThen(a, x);
    PrefixThen(a, y);
    PrefixThen(b, x);
    if HasHeaderOf(x, p) {
      RestSameAt(p, Outcome(a), Outcome(b), x);
    } else {
      RestKeepsField(p, Outcome(a), x);
      RestKeepsField(p, Outcome(a), y);
    }
  }

  lemma {:induction false} SpoiltStays(k: Text, a: seq<View>, b: seq<View>, x: seq<View>, y: seq<View>)
    requires FromHeader(x) && FromHeader(y) && HeadAlike(k, x, y) && AllSeen(a + x) && AllSeen(a + y)
    requires !Outcome(a + y).faulty && !SameBut(k, Outcome(a + x), Outcome(a + y))
    requires Outcome(b).faulty || Outcome(a + x).faulty
             || (|Outcome(b).edges| >= |Outcome(a).edges| && |Outcome(a + x).edges| >= |Outcome(a + y).edges|)
    ensures !SameBut(k, Outcome(b + x), Outcome(a + y))
  {
    hide Outcome, Added, HeadAlike, FromHeader, SameBut, SameAt, AllSeen, Lookup;
    PrefixThen(a, x);
    PrefixThen(a, y);
    PrefixThen(b, x);
    SameButAt(k, Outcome(a + x), Outcome(a + y));
    SameButAt(k, Outcome(b + x), Outcome(a + y));
    if !Outcome(b).faulty && !Outcome(a + x).faulty {
      if Outcome(a + x).edges != Outcome(a + y).edges {
        EdgesDiffer(Outcome(a).edges, Outcome(b).edges, Added(Nothing, x).edges, Added(Nothing, y).edges);
      } else {
        var p :| p != k && !SameAt(p, Outcome(a + x), Outcome(a + y));
        NotTheEdgesField(a + x, a + y, p);
        FieldDiffers(k, a, b, x, y, p);
      }
    }
  }

  lemma NotTheEdgesField(x: seq<View>, y: seq<View>, p: Text)
    requires AllSeen(x) && AllSeen(y) && !SameAt(p, Outcome(x), Outcome(y))
    ensures p != EDGES
  {
    hide Outcome, Lookup;
    OutcomeHasNoEdgesField(x);
    OutcomeHasNoEdgesField(y);
  }

  lemma EdgesDiffer(a: seq<Props>, b: seq<Props>, x: seq<Props>, y: seq<Props>)
    requires |b| >= |a| && |a + x| >= |a + y| && a + x != a + y
    ensures b + x != a + y
  {
    if |b| == |a| {
      SameSplit(b, x, a, y);
    }
  }

  lemma SameSplit(b: seq<Props>, x: seq<Props>, a: seq<Props>, y: seq<Props>)
    requires |b| == |a|
    ensures b + x == a + y ==> b == a && x == y
  {
    if b + x == a + y {
      assert (b + x)[..|b|] == b && (a + y)[..|a|] == a;
      assert (b + x)[|b|..] == x && (a + y)[|a|..] == y;
    }
  }

  /** The lines from another key's header on, with and without the last range. */
  lemma TailsOfCut(vs: seq<View>, k: Text, e: Entry, p: nat)
    requires OwnRange(vs, k, e) && p < e.start && IsHeader(vs[p]) && AllSeen(vs)
    ensures var a, x, y := vs[..p], vs[p..e.start] + vs[e.end..], vs[p..];
            && vs == a + y && Cut(vs, e.start, e.end) == a + x
            && FromHeader(x) && FromHeader(y) && HeadAlike(k, x, y) && AllSeen(a + x) && AllSeen(a + y)
  {
    hide HeaderOf, Seen;
    var a, x, y := vs[..p], vs[p..e.start] + vs[e.end..], vs[p..];
    assert x[0] == vs[p] && y[0] == vs[p];
    forall q | q != k
      ensures HasHeaderOf(x, q) <==> HasHeaderOf(y, q)
    {
      HeadsLeft(vs, k, e, p, q);
    }
    forall i | 0 <= i < |a + x|
      ensures Seen((a + x)[i])
    {
      assert (a + x)[i] == vs[if i < e.start then i else i + e.end - e.start];
    }
  }

  lemma HeadsLeft(vs: seq<View>, k: Text, e: Entry, p: nat, q: Text)
    requires OwnRange(vs, k, e) && p < e.start && q != k
    ensures HasHeaderOf(vs[p..e.start] + vs[e.end..], q) <==> HasHeaderOf(vs[p..], q)
  {
    hide HeaderOf, Loose;
    var x, y := vs[p..e.start] + vs[e.end..], vs[p..];
    if i :| 0 <= i < |x| && HeaderOf(x[i], q) {
      var j := if i < e.start - p then i else i + e.end - e.start;
      assert y[j] == x[i];
    }
    if j :| 0 <= j < |y| && HeaderOf(y[j], q) {
      assert y[j] == vs[p + j];
      HeaderOutside(vs, k, e, q, p + j);
      var i := if p + j < e.start then j else j - (e.end - e.start);
      assert x[i] == y[j];
    }
  }

  /** No header of another key stands in the range. */
  lemma HeaderOutside(vs: seq<View>, k: Text, e: Entry, q: Text, i: nat)
    requires OwnRange(vs, k, e) && i < |vs| && HeaderOf(vs[i], q) && q != k
    ensures i < e.start || e.end <= i
  {
    hide Loose;
    if e.start < i < e.end {
      LooseAt(vs, e.start + 1, e.end, i);
    }
  }

  /** A fault that the first cut makes is there at the end. */
  lemma FaultShows(vs: seq<View>, k: Text, own: seq<Entry>, line: Option<View>)
    requires OwnRanges(vs, k, own) && |own| > 1 && k != EDGES && !Outcome(vs).faulty
    requires Outcome(Cut(vs, own[|own| - 1].start, own[|own| - 1].end)).faulty
    ensures Outcome(Edited(vs, own, line)).faulty
  {
    hide Outcome, OwnRange, Added, HeadAlike, FromHeader, At;
    RangesLeft(vs, k, own);
    var e, init := own[|own| - 1], own[..|own| - 1];
    CutCounts(vs, k, e);
    var p := SpoiltBehind(vs, k, own);
    TailsOfCut(vs, k, e, p);
    var a, x, y := vs[..p], vs[p..e.start] + vs[e.end..], vs[p..];
    PrefixThen(a, x);
    PrefixThen(a, y);
    EditedFront(a, x, init, line);
    PrefixThen(Edited(a, init, line), x);
  }

  lemma PrefixRanges(vs: seq<View>, k: Text, own: seq<Entry>, p: nat)
    requires OwnRanges(vs, k, own) && own != [] && p <= |vs| && Within(own[..|own| - 1], p)
    ensures OwnRanges(vs[..p], k, own[..|own| - 1])
    ensures FlowFree(vs, own) ==> FlowFree(vs[..p], own[..|own| - 1])
  {
    hide OwnRange, AllSeen, NoFlow;
    var n := |own| - 1;
    var init, a := own[..n], vs[..p];
    if init != [] {
      WithinFront(init, p);
    }
    CutSeen(vs, p, p);
    forall j | 0 <= j < n
      ensures OwnRange(a, k, init[j]) && init[j].end <= p && a[init[j].start + 1..init[j].end] == vs[own[j].start + 1..own[j].end]
    {
      assert OwnRange(vs, k, own[j]) && init[j].end <= p;
      PrefixRange(vs, k, own[j], p);
    }
  }

  /** With no flow edge among the key's lines, the edit loses no edge. */
  lemma {:induction false} EditLosesNone(vs: seq<View>, k: Text, own: seq<Entry>, line: Option<View>)
    requires OwnRanges(vs, k, own) && own != [] && k != EDGES && !Outcome(vs).faulty && FlowFree(vs, own) && LineFor(k, line)
    ensures var now := Outcome(Edited(vs, own, line)); now.faulty || |now.edges| >= |Outcome(vs).edges|
    decreases |own|
  {
    hide Outcome, OwnRange, FlowFree, LineFor, NoFlow;
    RangesLeft(vs, k, own);
    var e, init := own[|own| - 1], own[..|own| - 1];
    var cut := Cut(vs, e.start, e.end);
    CutCounts(vs, k, e);
    if |own| == 1 {
      if line.Some? {
        LineIsHeader(k, line);
        SetVsExactly(vs, k, e, line.value);
      } else {
        assert vs[..e.start] + OneLineOf(line) + vs[e.end..] == cut;
      }
    } else if Outcome(cut).faulty {
      FaultShows(vs, k, own, line);
    } else {
      EditLosesNone(cut, k, init, line);
    }
  }

  lemma LineIsHeader(k: Text, line: Option<View>)
    requires LineFor(k, line) && line.Some?
    ensures HeaderOf(line.value, k) && Seen(line.value)
  {
  }

  /** What the first cut spoils no later cut mends. */
  lemma BadCutShows(vs: seq<View>, k: Text, own: seq<Entry>, line: Option<View>)
    requires OwnRanges(vs, k, own) && |own| > 1 && k != EDGES && !Outcome(vs).faulty && FlowFree(vs, own) && LineFor(k, line)
    requires own[|own| - 1].start < own[|own| - 1].end <= |vs| && !CutFits(vs, k, own[|own| - 1])
    ensures !SameBut(k, Outcome(Edited(vs, own, line)), Outcome(vs))
  {
    hide *;
    RangesLeft(vs, k, own);
    var e, init := own[|own| - 1], own[..|own| - 1];
    SeenRanges(vs, k, own);
    CutVsExactly(vs, k, e);
    CutCounts(vs, k, e);
    WhatSpoils(vs, k, e);
    var p := SpoiltBehind(vs, k, own);
    TailsOfCut(vs, k, e, p);
    var a, x, y := vs[..p], vs[p..e.start] + vs[e.end..], vs[p..];
    PrefixThen(a, y);
    PrefixRanges(vs, k, own, p);
    FrontLosesNone(a, k, init, line);
    EditSplits(vs, a, x, own, line);
    SpoiltStays(k, a, Edited(a, init, line), x, y);
  }

  lemma SeenRanges(vs: seq<View>, k: Text, own: seq<Entry>)
    requires OwnRanges(vs, k, own)
    ensures AllSeen(vs) && Within(own, |vs|)
  {
  }

  lemma FrontLosesNone(a: seq<View>, k: Text, own: seq<Entry>, line: Option<View>)
    requires OwnRanges(a, k, own) && own != [] && k != EDGES && LineFor(k, line) && FlowFree(a, own)
    ensures !Outcome(a).faulty ==>
              Outcome(Edited(a, own, line)).faulty || |Outcome(Edited(a, own, line)).edges| >= |Outcome(a).edges|
  {
    hide Outcome, OwnRanges, FlowFree, Edited;
    if !Outcome(a).faulty {
      EditLosesNone(a, k, own, line);
    }
  }

  lemma EditSplits(vs: seq<View>, a: seq<View>, x: seq<View>, own: seq<Entry>, line: Option<View>)
    requires Within(own, |vs|) && |own| > 1 && Within(own[..|own| - 1], |a|)
    requires var e := own[|own| - 1]; e.start < e.end <= |vs| && Cut(vs, e.start, e.end) == a + x
    ensures Edited(vs, own, line) == Edited(a, own[..|own| - 1], line) + x
  {
    EditedFront(a, x, own[..|own| - 1], line);
  }

  lemma WhatSpoils(vs: seq<View>, k: Text, e: Entry)
    requires OwnRange(vs, k, e) && NoFlow(vs[e.start + 1..e.end]) && !CutFits(vs, k, e)
    ensures var m := At(vs, e.start).mode; m.UnderEdges? || (OpenKey(m).Some? && OpenKey(m).value != k)
  {
    hide NoneAdds, NoHeaderOf, Quiet, At;
  }

  /** The edit is right only if every cut fits: for one range, whatever it holds; for more, when no flow edge stands
      among the key's lines, which a loose line elsewhere might make up for. */
  lemma {:induction false} RightEditFits(vs: seq<View>, k: Text, own: seq<Entry>, line: Option<View>)
    requires OwnRanges(vs, k, own) && own != [] && HoldAll(vs, k, own) && k != EDGES && LineFor(k, line)
    requires !Outcome(vs).faulty && (|own| == 1 || FlowFree(vs, own))
    requires Right(k, line, Outcome(vs), Outcome(Edited(vs, own, line)))
    ensures AllFit(vs, k, own, line)
    decreases |own|
  {
    hide Outcome, SameBut, CutFits, FirstFits, HoldAll, OwnRange, FlowFree, Lookup, ValueOf, LineFor;
    RangesLeft(vs, k, own);
    var e := own[|own| - 1];
    if |own| == 1 {
      assert own == [e];
      FirstExactly(vs, k, e, line);
    } else {
      var cut := Cut(vs, e.start, e.end);
      if !CutFits(vs, k, e) {
        BadCutShows(vs, k, own, line);
      }
      CutVsExactly(vs, k, e);
      SameButChains(k, Outcome(Edited(vs, own, line)), Outcome(cut), Outcome(vs));
      RightEditFits(cut, k, own[..|own| - 1], line);
    }
  }
}
