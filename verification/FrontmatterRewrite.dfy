/** One edge written out and read back: exactly when it survives (`lib/kernel/frontmatter.js`). */
module FrontmatterRewrite {
  import opened Common
  import opened ContentText
  import opened FrontmatterScalar
  import opened FrontmatterLines
  import opened FrontmatterLexer
  import opened FrontmatterCore
  import opened FrontmatterFold
  import opened FrontmatterCut
  import opened FrontmatterRoundTrip

  // ---------- which edges survive ----------

  /** An edge as the reader of inline values gives it: type and target, and keys of their own for the rest. */
  predicate WellRead(e: Edge) {
    && e.kind != [] && IsText(e.kind) && e.to != [] && IsText(e.to) && DistinctKeys(e.attrs)
    && forall i | 0 <= i < |e.attrs| ::
         IsKey(e.attrs[i].0) && e.attrs[i].0 != TYPE && e.attrs[i].0 != TO && e.attrs[i].0 != TARGET && IsText(e.attrs[i].1)
  }

  /** The line holds its value: written, it is one line, and no flow edge stands on it. */
  predicate GoodLine(line: Text, written: Text) {
    OneLine(written) && FlowEdge(line) == None
  }

  predicate GoodCont(k: Text, v: Text) {
    GoodLine(ContText(k, EmitScalar(v, false)), EmitScalar(v, false))
  }

  predicate GoodOpen(kind: Text) {
    GoodLine(DashedText(KeyText(TYPE, EmitScalar(kind, true))), EmitScalar(kind, true))
  }

  /** Nothing is folded, and every line of the block form holds its value. */
  predicate BlockSurvives(e: Edge) {
    && FoldLines(e.kind) == e.kind && GoodOpen(e.kind)
    && FoldLines(e.to) == e.to && GoodCont(TO, e.to)
    && forall i | 0 <= i < |e.attrs| :: FoldLines(e.attrs[i].1) == e.attrs[i].1 && GoodCont(e.attrs[i].0, e.attrs[i].1)
  }

  /** The edge can be written: no attribute is empty, and its values are bare tokens or fit their lines. */
  predicate Survives(e: Edge) {
    (forall i | 0 <= i < |e.attrs| :: e.attrs[i].1 != []) && (Flowable(e) || BlockSurvives(e))
  }

  // ---------- the views of its lines ----------

  lemma WrittenValue(v: Text, q: bool)
    requires IsText(v)
    ensures var t := EmitScalar(v, q);
            Trim(t) == t && (t == [] || !IsWhite(t[0])) && ScalarValue(Trim(t)) == FoldLines(v)
  {
    hide EmitScalar, ScalarValue, FoldLines;
    ScalarRoundTrip(v, q);
    TrimFixes(EmitScalar(v, q));
    hide Trim;
  }

  lemma {:induction false} FoldKeepsInk(v: Text)
    requires v != []
    ensures FoldLines(v) != []
  {
  }

  lemma EmitAlike(v: Text)
    requires v != []
    ensures EmitScalar(v, true) == EmitScalar(v, false)
  {
    FoldKeepsInk(v);
    hide FoldLines, Trim, ScalarValue;
  }

  lemma KeyTextFails(key: Text, text: Text)
    requires IsKey(key) && !OneLine(text) && (text == [] || !IsWhite(text[0]))
    ensures KeyValue(KeyText(key, text)) == None
  {
    var rest := [COLON, SPACE] + text;
    var s := KeyText(key, text);
    assert s == key + rest;
    RunOf(key, rest);
    assert s[|key| + 1..] == [SPACE] + text;
    SpaceOff(text);
  }

  lemma InkIsNoBlank(s: Text)
    requires TrimStart(s) != [] && TrimStart(s)[0] != HASH
    ensures !IsBlankOrComment(s)
  {
    TrimEndKeeps(TrimStart(s));
  }

  lemma DashIsNoKey(rest: Text)
    ensures KeyValue([DASH] + rest) == None
  {
    var s := [DASH] + rest;
    assert Run(s)[0] == DASH;
  }

  lemma DashedTrim(text: Text)
    ensures TrimStart(DashedText(text)) == [DASH] + ([SPACE] + text)
  {
    var t := [DASH, SPACE] + text;
    assert DashedText(text) == [SPACE] + ([SPACE] + t);
    SpaceSkipped([SPACE] + t);
    SpaceOff(t);
    assert t == [DASH] + ([SPACE] + text);
  }

  /** The opening line, whatever its value. */
  lemma OpenView(text: Text)
    requires text == [] || !IsWhite(text[0])
    ensures var line := DashedText(KeyText(TYPE, text));
            var v := ViewOf(line);
            if FlowEdge(line).Some? then v.FlowLine?
            else v.Other? && v.cont.None? && !v.blank && v.open == if OneLine(text) then Some((TYPE, text)) else None
  {
    hide FlowEdge, InlineList, KeyValue, TrimStart, ListItem, FoldedText, IsKey, IsBlankOrComment, OneLine;
    var inner := KeyText(TYPE, text);
    var line := DashedText(inner);
    ToIsKey();
    TypeStarts(text);
    DashedReads(inner);
    IndentedIsNoKey(line);
    DashedTrim(inner);
    DashIsNoKey([SPACE] + inner);
    InkIsNoBlank(line);
    if OneLine(text) {
      KeyTextReads(TYPE, text);
    } else {
      KeyTextFails(TYPE, text);
    }
  }

  lemma TypeStarts(text: Text)
    ensures KeyText(TYPE, text) != [] && !IsWhite(KeyText(TYPE, text)[0])
  {
    assert KeyText(TYPE, text)[0] == 0x74;
  }

  lemma ContTrim(key: Text, text: Text)
    requires IsKey(key)
    ensures TrimStart(ContText(key, text)) == KeyText(key, text) && Indented(ContText(key, text))
    ensures KeyText(key, text) != [] && KeyText(key, text)[0] != DASH && KeyText(key, text)[0] != HASH
  {
    hide TrimStart;
    var t := KeyText(key, text);
    KeyIsBlack(key);
    assert t[0] == key[0];
    IndentedText(t);
    assert ContText(key, text) == [SPACE] + ([SPACE] + ([SPACE] + ([SPACE] + t)));
  }

  /** A line that goes on with the edge, whatever its value. */
  lemma ContView(key: Text, text: Text)
    requires IsKey(key) && (text == [] || !IsWhite(text[0]))
    ensures var line := ContText(key, text);
            var v := ViewOf(line);
            if FlowEdge(line).Some? then v.FlowLine?
            else v.Other? && v.open.None? && !v.blank && v.cont == if OneLine(text) then Some((key, text)) else None
  {
    hide FlowEdge, InlineList, KeyValue, TrimStart, ListItem, FoldedText, IsKey, IsBlankOrComment, OneLine;
    var line := ContText(key, text);
    ContTrim(key, text);
    IndentedIsNoKey(line);
    InkIsNoBlank(line);
    NotDashed(line);
    if OneLine(text) {
      KeyTextReads(key, text);
    } else {
      KeyTextFails(key, text);
    }
  }

  lemma NotDashed(s: Text)
    requires TrimStart(s) != [] && TrimStart(s)[0] != DASH
    ensures BlockOpen(s) == None
  {
    hide KeyValue;
  }

  // ---------- the lines that go on with an edge ----------

  function FoldedProps(ps: Props): (r: Props)
    ensures |r| == |ps| && forall k | 0 <= k < |r| :: r[k] == (ps[k].0, FoldLines(ps[k].1))
  {
    seq(|ps|, k requires 0 <= k < |ps| => (ps[k].0, FoldLines(ps[k].1)))
  }

  predicate ContKeys(ps: Props) {
    forall i | 0 <= i < |ps| :: IsKey(ps[i].0) && ps[i].0 != TARGET && IsText(ps[i].1)
  }

  predicate GoodConts(ps: Props) {
    forall i | 0 <= i < |ps| :: GoodCont(ps[i].0, ps[i].1)
  }

  lemma ViewsHead(line: Text, rest: seq<Text>)
    ensures Views([line] + rest) == [ViewOf(line)] + Views(rest)
  {
    hide ViewOf;
  }

  /** One such line, with or without an edge to go on with. */
  lemma OneCont(open: Option<Props>, k: Text, v: Text)
    requires IsKey(k) && k != TARGET && IsText(v)
    ensures var d := CoreStep(Core([], [], false, UnderEdges(open)), ViewOf(ContText(k, EmitScalar(v, false))));
            && d.mode.UnderEdges?
            && (if GoodCont(k, v) && open.Some? then d == Core([], [], false, UnderEdges(Some(Put(open.value, k, FoldLines(v)))))
                else !d.faulty ==> d.mode == UnderEdges(None) && |d.edges| == |OpenEdges(open)| + 1)
  {
    hide ViewOf, EmitScalar, ScalarValue, Trim, FoldLines, Put, Complete, ContText, FlowEdge, OneLine, IsKey, CoreStep;
    var text := EmitScalar(v, false);
    WrittenValue(v, false);
    ContView(k, text);
    var view := ViewOf(ContText(k, text));
    NotAHeader(view);
    LooseUnderEdges(open, view);
  }

  lemma NotAHeader(v: View)
    requires v.Other? || v.FlowLine?
    ensures !IsHeader(v)
  {
  }

  /** With no edge to go on with, each line is a fault or a flow edge. */
  lemma {:induction false} ContsAlone(ps: Props)
    requires ContKeys(ps)
    ensures var a := Added(UnderEdges(None), Views(ContLines(ps))); !a.faulty ==> |a.edges| == |ps|
    decreases |ps|
  {
    hide ViewOf, EmitScalar, CoreStep, Added, ContText, GoodCont, IsKey;
    if ps == [] {
      AddedNothing(None);
      NoViewsOf();
    } else {
      var (k, v) := ps[0];
      var line, rest := ContText(k, EmitScalar(v, false)), ContLines(ps[1..]);
      ViewsHead(line, rest);
      assert IsKey(ps[0].0) && ContKeys(ps[1..]);
      OneCont(None, k, v);
      var views := [ViewOf(line)] + Views(rest);
      assert views[1..] == Views(rest);
      AddedHead(UnderEdges(None), views);
      ContsAlone(ps[1..]);
    }
  }

  lemma NoViewsOf()
    ensures Views([]) == []
  {
  }

  /** With an edge to go on with: its properties come to the folded values if every line is good, and more than one edge
      comes of it, or a fault, if one is not. */
  lemma {:induction false} ContsExactly(p: Props, ps: Props)
    requires ContKeys(ps)
    ensures var a := Added(UnderEdges(Some(p)), Views(ContLines(ps)));
            && (!a.faulty ==> |a.edges| >= 1 && (|a.edges| == 1 ==> GoodConts(ps)))
            && (GoodConts(ps) ==>
                  var b := Added(UnderEdges(Some(PutAll(p, FoldedProps(ps)))), []); a.edges == b.edges && a.faulty == b.faulty)
    decreases |ps|
  {
    hide ViewOf, EmitScalar, CoreStep, Added, ContText, GoodCont, IsKey, Put, FoldLines, Complete;
    if ps == [] {
      AddedNothing(Some(p));
      NoViewsOf();
    } else {
      var (k, v) := ps[0];
      var line, rest := ContText(k, EmitScalar(v, false)), ContLines(ps[1..]);
      ViewsHead(line, rest);
      assert IsKey(ps[0].0) && ContKeys(ps[1..]);
      OneCont(Some(p), k, v);
      var views := [ViewOf(line)] + Views(rest);
      assert views[1..] == Views(rest);
      AddedHead(UnderEdges(Some(p)), views);
      if GoodCont(k, v) {
        ContsExactly(Put(p, k, FoldLines(v)), ps[1..]);
        assert FoldedProps(ps)[1..] == FoldedProps(ps[1..]);
        GoodContsHead(ps);
      } else {
        ContsAlone(ps[1..]);
        assert !GoodConts(ps);
      }
    }
  }

  lemma GoodContsHead(ps: Props)
    requires ps != []
    ensures GoodConts(ps) <==> GoodCont(ps[0].0, ps[0].1) && GoodConts(ps[1..])
  {
    hide GoodCont;
    if GoodCont(ps[0].0, ps[0].1) && GoodConts(ps[1..]) {
      assert forall i | 0 < i < |ps| :: ps[i] == ps[1..][i - 1];
    }
  }

  // ---------- the whole edge ----------

  /** What the lines of a written edge come to, under `edges:`. */
  function Rewritten(e: Edge): Core {
    Added(UnderEdges(None), Views(EdgeLines(e)))
  }

  /** The properties behind the type that are written. */
  function TailOf(e: Edge): Props {
    [(TO, e.to)] + Nonempty(e.attrs)
  }

  lemma {:induction false} NonemptyKeeps(attrs: Props)
    ensures forall i | 0 <= i < |Nonempty(attrs)| :: Nonempty(attrs)[i] in attrs
    ensures DistinctKeys(attrs) ==> DistinctKeys(Nonempty(attrs))
  {
    if attrs != [] {
      var rest := Nonempty(attrs[1..]);
      NonemptyKeeps(attrs[1..]);
      assert forall i | 0 < i < |attrs| :: attrs[i] == attrs[1..][i - 1];
      if attrs[0].1 == [] {
        assert Nonempty(attrs) == rest;
      } else {
        assert Nonempty(attrs) == [attrs[0]] + rest;
        forall i | 0 <= i < |rest|
          ensures DistinctKeys(attrs) ==> attrs[0].0 != rest[i].0
        {
          var j :| 0 <= j < |attrs[1..]| && attrs[1..][j] == rest[i];
          assert attrs[j + 1] == rest[i];
        }
      }
    }
  }

  lemma TailKeys(e: Edge)
    requires WellRead(e)
    ensures ContKeys(TailOf(e)) && DistinctKeys(TailOf(e)) && forall i | 0 <= i < |TailOf(e)| :: TailOf(e)[i].0 != TYPE
  {
    hide IsKey, IsText;
    ToIsKey();
    NonemptyKeeps(e.attrs);
    var t, ps := TailOf(e), Nonempty(e.attrs);
    forall i | 0 <= i < |ps|
      ensures IsKey(ps[i].0) && ps[i].0 != TARGET && IsText(ps[i].1) && ps[i].0 != TYPE && ps[i].0 != TO
    {
      assert ps[i] in e.attrs;
    }
    assert forall i | 0 < i < |t| :: t[i] == ps[i - 1];
  }

  lemma BlockLines(e: Edge)
    requires WellRead(e) && !Flowable(e)
    ensures EdgeLines(e) == [DashedText(KeyText(TYPE, EmitScalar(e.kind, true)))] + ContLines(TailOf(e))
  {
    hide EmitScalar, ContText, DashedText, KeyText, Flowable;
    EmitAlike(e.to);
    assert TailOf(e)[1..] == Nonempty(e.attrs);
  }

  /** The first line of the block form. */
  lemma OneOpen(kind: Text)
    requires IsText(kind)
    ensures var d := CoreStep(Core([], [], false, UnderEdges(None)), ViewOf(DashedText(KeyText(TYPE, EmitScalar(kind, true)))));
            && d.mode.UnderEdges?
            && (if GoodOpen(kind) then d == Core([], [], false, UnderEdges(Some([(TYPE, FoldLines(kind))])))
                else !d.faulty ==> d.mode == UnderEdges(None) && |d.edges| == 1)
  {
    hide ViewOf, EmitScalar, ScalarValue, Trim, FoldLines, Complete, DashedText, KeyText, FlowEdge, OneLine, Put;
    var text := EmitScalar(kind, true);
    WrittenValue(kind, true);
    OpenView(text);
    TypeIsItself();
  }

  lemma TypeIsItself()
    ensures BlockKey(TYPE) == TYPE && TO != TARGET
  {
  }

  /** What the block form comes to. */
  lemma {:induction false} BlockExactly(e: Edge)
    requires WellRead(e) && !Flowable(e)
    ensures var a := Rewritten(e);
            && (!a.faulty ==> |a.edges| >= 1 && (|a.edges| == 1 ==> GoodOpen(e.kind) && GoodConts(TailOf(e))))
            && (GoodOpen(e.kind) && GoodConts(TailOf(e)) ==>
                  !a.faulty && a.edges == [[(TYPE, FoldLines(e.kind))] + FoldedProps(TailOf(e))])
  {
    hide ViewOf, EmitScalar, CoreStep, Added, ContText, DashedText, KeyText, GoodCont, GoodOpen, FoldLines, Complete, Flowable,
         WellRead, Nonempty, EdgeLines;
    BlockLines(e);
    TailKeys(e);
    WellReadParts(e);
    var line, rest := DashedText(KeyText(TYPE, EmitScalar(e.kind, true))), ContLines(TailOf(e));
    ViewsHead(line, rest);
    var views := [ViewOf(line)] + Views(rest);
    assert views[1..] == Views(rest);
    OneOpen(e.kind);
    AddedHead(UnderEdges(None), views);
    if GoodOpen(e.kind) {
      var first := [(TYPE, FoldLines(e.kind))];
      ContsExactly(first, TailOf(e));
      if GoodConts(TailOf(e)) {
        FoldedTail(e);
        PutAllAppends(first, FoldedProps(TailOf(e)));
        AddedNothing(Some(first + FoldedProps(TailOf(e))));
        FoldedIsComplete(e);
      }
    } else {
      ContsAlone(TailOf(e));
    }
  }

  lemma WellReadParts(e: Edge)
    requires WellRead(e)
    ensures IsText(e.kind) && e.kind != [] && e.to != [] && |TailOf(e)| >= 1
  {
  }

  lemma FoldedTail(e: Edge)
    requires DistinctKeys(TailOf(e)) && forall i | 0 <= i < |TailOf(e)| :: TailOf(e)[i].0 != TYPE
    ensures DistinctKeys(FoldedProps(TailOf(e))) && forall i | 0 <= i < |TailOf(e)| :: FoldedProps(TailOf(e))[i].0 != TYPE
  {
    hide FoldLines;
  }

  lemma FoldedIsComplete(e: Edge)
    requires e.kind != [] && e.to != []
    ensures Complete([(TYPE, FoldLines(e.kind))] + FoldedProps(TailOf(e)))
  {
    hide FoldLines, Nonempty;
    NothingFolds(e.kind);
    NothingFolds(e.to);
    var rest := FoldedProps(TailOf(e));
    assert rest[0] == (TO, FoldLines(e.to));
    StartsComplete(FoldLines(e.kind), FoldLines(e.to), rest);
  }

  lemma StartsComplete(kind: Text, to: Text, rest: Props)
    requires kind != [] && to != [] && rest != [] && rest[0] == (TO, to)
    ensures Complete([(TYPE, kind)] + rest)
  {
    var p := [(TYPE, kind)] + rest;
    assert p[0] == (TYPE, kind) && p[1..] == rest;
    assert TYPE != TO;
  }

  /** What the flow form comes to. */
  lemma FlowExactly(e: Edge)
    requires WellRead(e) && Flowable(e)
    ensures var a := Rewritten(e); !a.faulty && a.edges == [[(TYPE, e.kind)] + TailOf(e)]
  {
    hide ViewOf, Added, CoreStep, FlowText, IsToken, IsKey, IsText;
    var attrs := Nonempty(e.attrs);
    FlowReads(e.kind, e.to, attrs);
    TailKeys(e);
    NonemptyKeeps(e.attrs);
    var first := [(TYPE, e.kind), (TO, e.to)];
    AttrKeysApart(e);
    PutAllAppends(first, attrs);
    assert first + attrs == [(TYPE, e.kind)] + TailOf(e);
    var line := FlowText(e.kind, e.to, attrs);
    ViewsHead(line, []);
    NoViewsOf();
    assert [line] + [] == [line];
    var views := [ViewOf(line)] + [];
    assert views[1..] == [];
    AddedHead(UnderEdges(None), views);
    NotAHeader(ViewOf(line));
    LooseUnderEdges(None, ViewOf(line));
    AddedNothing(None);
  }

  lemma AttrKeysApart(e: Edge)
    requires WellRead(e)
    ensures forall j | 0 <= j < |Nonempty(e.attrs)| :: Nonempty(e.attrs)[j].0 != TYPE && Nonempty(e.attrs)[j].0 != TO
  {
    hide IsKey, IsText;
    NonemptyKeeps(e.attrs);
    forall j | 0 <= j < |Nonempty(e.attrs)|
      ensures Nonempty(e.attrs)[j].0 != TYPE && Nonempty(e.attrs)[j].0 != TO
    {
      assert Nonempty(e.attrs)[j] in e.attrs;
    }
  }

  // ---------- exactly when it is the edge again ----------

  /** Equal but for the order of the properties. */
  ghost predicate SameProps(p: Props, q: Props) {
    forall k: Text :: Lookup<Text>(p, k) == Lookup<Text>(q, k)
  }

  lemma {:induction false} LookupAt(m: Props, i: nat)
    requires DistinctKeys(m) && i < |m|
    ensures Lookup<Text>(m, m[i].0) == Some(m[i].1)
  {
    if i > 0 {
      LookupAt(m[1..], i - 1);
    }
  }

  lemma {:induction false} LookupFrom(m: Props, k: Text)
    requires Lookup<Text>(m, k).Some?
    ensures exists i :: 0 <= i < |m| && m[i] == (k, Lookup<Text>(m, k).value)
  {
    if m[0].0 != k {
      LookupFrom(m[1..], k);
      var i :| 0 <= i < |m[1..]| && m[1..][i] == (k, Lookup<Text>(m[1..], k).value);
      assert m[i + 1] == m[1..][i];
    }
  }

  lemma PropsDistinct(e: Edge)
    requires WellRead(e)
    ensures DistinctKeys(PropsOf(e))
  {
    hide IsKey, IsText;
  }

  /** The edge again means that no attribute was empty and nothing was folded. */
  lemma {:induction false} AgainMeansKept(e: Edge, now: Props, folded: bool)
    requires WellRead(e) && SameProps(now, PropsOf(e))
    requires now == if folded then [(TYPE, FoldLines(e.kind))] + FoldedProps(TailOf(e)) else [(TYPE, e.kind)] + TailOf(e)
    ensures forall i | 0 <= i < |e.attrs| :: e.attrs[i].1 != []
    ensures folded ==> FoldLines(e.kind) == e.kind && FoldLines(e.to) == e.to
                       && forall i | 0 <= i < |e.attrs| :: FoldLines(e.attrs[i].1) == e.attrs[i].1
  {
    hide IsKey, IsText, FoldLines, Nonempty, Lookup;
    PropsDistinct(e);
    var was := PropsOf(e);
    forall i | 0 <= i < |e.attrs|
      ensures e.attrs[i].1 != [] && (folded ==> FoldLines(e.attrs[i].1) == e.attrs[i].1)
    {
      assert was[i + 2] == e.attrs[i];
      LookupAt(was, i + 2);
      AttrCameBack(e, now, folded, i);
    }
    assert was[0] == (TYPE, e.kind) && was[1] == (TO, e.to);
    LookupAt(was, 0);
    LookupAt(was, 1);
    HeadsCameBack(e, now, folded);
  }

  lemma HeadsCameBack(e: Edge, now: Props, folded: bool)
    requires now == if folded then [(TYPE, FoldLines(e.kind))] + FoldedProps(TailOf(e)) else [(TYPE, e.kind)] + TailOf(e)
    ensures Lookup<Text>(now, TYPE) == Some(if folded then FoldLines(e.kind) else e.kind)
    ensures Lookup<Text>(now, TO) == Some(if folded then FoldLines(e.to) else e.to)
  {
    hide FoldLines, Nonempty;
    assert now[1..][0] == (TO, if folded then FoldLines(e.to) else e.to);
    assert TYPE != TO;
  }

  lemma AttrCameBack(e: Edge, now: Props, folded: bool, i: nat)
    requires WellRead(e) && i < |e.attrs| && Lookup<Text>(now, e.attrs[i].0) == Some(e.attrs[i].1)
    requires now == if folded then [(TYPE, FoldLines(e.kind))] + FoldedProps(TailOf(e)) else [(TYPE, e.kind)] + TailOf(e)
    ensures e.attrs[i].1 != [] && (folded ==> FoldLines(e.attrs[i].1) == e.attrs[i].1)
  {
    hide IsKey, IsText, FoldLines, Lookup;
    var k, v := e.attrs[i].0, e.attrs[i].1;
    LookupFrom(now, k);
    var j :| 0 <= j < |now| && now[j] == (k, v);
    NonemptyKeeps(e.attrs);
    var ps := Nonempty(e.attrs);
    assert j >= 2;
    assert TailOf(e)[j - 1] == ps[j - 2];
    assert ps[j - 2] in e.attrs;
    var n :| 0 <= n < |e.attrs| && e.attrs[n] == ps[j - 2];
    assert n == i;
    NothingFolds(ps[j - 2].1);
  }

  lemma NothingFolds(v: Text)
    requires v != []
    ensures FoldLines(v) != []
  {
    FoldKeepsInk(v);
  }

  lemma SurvivorsTail(e: Edge)
    requires forall i | 0 <= i < |e.attrs| :: e.attrs[i].1 != []
    ensures TailOf(e) == [(TO, e.to)] + e.attrs && [(TYPE, e.kind)] + TailOf(e) == PropsOf(e)
  {
    NoneLeftOut(e.attrs);
  }

  lemma TailIsGood(e: Edge)
    requires forall i | 0 <= i < |e.attrs| :: e.attrs[i].1 != []
    ensures GoodConts(TailOf(e)) <==> GoodCont(TO, e.to) && forall i | 0 <= i < |e.attrs| :: GoodCont(e.attrs[i].0, e.attrs[i].1)
  {
    hide GoodCont;
    SurvivorsTail(e);
    var t := TailOf(e);
    assert t[0] == (TO, e.to) && forall i | 0 <= i < |e.attrs| :: t[i + 1] == e.attrs[i];
  }

  lemma NothingFolded(e: Edge)
    requires FoldLines(e.kind) == e.kind && FoldLines(e.to) == e.to
    requires forall i | 0 <= i < |e.attrs| :: e.attrs[i].1 != [] && FoldLines(e.attrs[i].1) == e.attrs[i].1
    ensures [(TYPE, FoldLines(e.kind))] + FoldedProps(TailOf(e)) == PropsOf(e)
  {
    hide FoldLines;
    SurvivorsTail(e);
    assert FoldedProps(TailOf(e)) == TailOf(e);
  }

  /** Written out and read back, an edge comes to at least one edge or a fault; to itself alone, up to the order of its
      properties, if and only if it survives. */
  lemma {:induction false} RewrittenExactly(e: Edge)
    requires WellRead(e)
    ensures !Rewritten(e).faulty ==> |Rewritten(e).edges| >= 1
    ensures Survives(e) ==> !Rewritten(e).faulty && Rewritten(e).edges == [PropsOf(e)]
    ensures !Rewritten(e).faulty && |Rewritten(e).edges| == 1 && SameProps(Rewritten(e).edges[0], PropsOf(e)) ==> Survives(e)
  {
    hide Rewritten, Flowable, FoldLines, GoodCont, GoodOpen, WellRead, Nonempty, SameProps, TailOf, PropsOf, FoldedProps, GoodConts;
    var a := Rewritten(e);
    if Flowable(e) {
      FlowExactly(e);
      if Survives(e) {
        SurvivorsTail(e);
      }
      if SameProps(a.edges[0], PropsOf(e)) {
        AgainMeansKept(e, a.edges[0], false);
      }
    } else {
      BlockExactly(e);
      if Survives(e) {
        TailIsGood(e);
        NothingFolded(e);
      }
      if !a.faulty && |a.edges| == 1 && SameProps(a.edges[0], PropsOf(e)) {
        AgainMeansKept(e, a.edges[0], true);
        TailIsGood(e);
      }
    }
  }

  // ---------- all the lines of one value ----------

  predicate AnyFault(edges: seq<Edge>) {
    exists i :: 0 <= i < |edges| && Rewritten(edges[i]).faulty
  }

  /** The edges the lines come to, one written edge after the other. */
  function AllRewritten(edges: seq<Edge>): seq<Props> {
    if edges == [] then [] else Rewritten(edges[0]).edges + AllRewritten(edges[1..])
  }

  /** The first line of a written edge closes the edge before it, or is a fault. */
  predicate Settles(v: View) {
    v.FlowLine? || (v.Other? && (v.open.Some? || (v.cont.None? && !v.blank)))
  }

  lemma FirstLineSettles(e: Edge)
    requires WellRead(e)
    ensures EdgeLines(e) != [] && Settles(ViewOf(EdgeLines(e)[0]))
  {
    hide ViewOf, EmitScalar, FlowEdge, DashedText, KeyText, FlowText, IsKey, OneLine, IsToken, ContText;
    if Flowable(e) {
      FlowReads(e.kind, e.to, Nonempty(e.attrs));
    } else {
      WrittenValue(e.kind, true);
      OpenView(EmitScalar(e.kind, true));
    }
  }

  lemma SettledBefore(c: Core, vs: seq<View>)
    requires c.mode.UnderEdges? && (vs == [] || Settles(vs[0]))
    ensures var d, y := CoreFlush(CoreRun(c, vs)), CoreFlush(CoreRun(CoreFlush(c), vs));
            d == y || (d.faulty && y.faulty)
  {
    hide CoreRun, CoreFlush, CoreStep;
    if vs == [] || Closing(vs[0]) {
      ClosedNext(c, vs);
    } else {
      FlushKeepsUnder(c);
      FaultAtOnce(c, vs[0]);
      FaultAtOnce(CoreFlush(c), vs[0]);
      RunHead(c, vs);
      RunHead(CoreFlush(c), vs);
      FaultStaysInRun(CoreStep(c, vs[0]), vs[1..]);
      FaultStaysInRun(CoreStep(CoreFlush(c), vs[0]), vs[1..]);
    }
  }

  lemma FlushKeepsUnder(c: Core)
    requires c.mode.UnderEdges?
    ensures CoreFlush(c).mode == UnderEdges(None)
  {
    hide Complete;
  }

  lemma FaultAtOnce(c: Core, v: View)
    requires c.mode.UnderEdges? && Settles(v) && !Closing(v)
    ensures CoreStep(c, v).faulty
  {
    hide Complete, Put, ScalarValue, Trim;
  }

  lemma {:induction false} LooseStaysUnder(c: Core, vs: seq<View>)
    requires c.mode.UnderEdges? && Loose(vs)
    ensures CoreRun(c, vs).mode.UnderEdges? && CoreRun(c, vs).fields == c.fields
    decreases |vs|
  {
    hide CoreStep;
    if vs != [] {
      UnderStays(c, vs[0]);
      LooseStaysUnder(CoreStep(c, vs[0]), vs[1..]);
    }
  }

  lemma UnderStays(c: Core, v: View)
    requires c.mode.UnderEdges? && !IsHeader(v)
    ensures CoreStep(c, v).mode.UnderEdges? && CoreStep(c, v).fields == c.fields
  {
    hide Complete, Put, ScalarValue, Trim;
  }

  predicate AllIndented(lines: seq<Text>) {
    forall i | 0 <= i < |lines| :: Indented(lines[i])
  }

  lemma {:induction false} ContLinesIndented(attrs: Props)
    ensures AllIndented(ContLines(attrs))
  {
    if attrs != [] {
      ContLinesIndented(attrs[1..]);
    }
  }

  lemma EdgeIndented(e: Edge)
    ensures AllIndented(EdgeLines(e))
  {
    hide EmitScalar, Flowable, AttrTail, Nonempty;
    ContLinesIndented(Nonempty(e.attrs));
  }

  lemma {:induction false} EdgeLinesIndented(edges: seq<Edge>)
    ensures AllIndented(AllEdgeLines(edges))
  {
    hide EdgeLines;
    if edges != [] {
      EdgeLinesIndented(edges[1..]);
      EdgeIndented(edges[0]);
    }
  }

  lemma IndentedIsLoose(lines: seq<Text>)
    requires AllIndented(lines)
    ensures Loose(Views(lines))
  {
    hide KeyValue, InlineList, FlowEdge;
    forall i | 0 <= i < |lines|
      ensures !IsHeader(Views(lines)[i])
    {
      IndentedIsNoKey(lines[i]);
    }
  }

  lemma ViewsJoin(a: seq<Text>, b: seq<Text>)
    ensures Views(a + b) == Views(a) + Views(b)
  {
    hide ViewOf;
  }

  /** Under a header, the lines of all the edges come to what each comes to alone. */
  lemma {:induction false} LinesComeTo(edges: seq<Edge>)
    requires forall i | 0 <= i < |edges| :: WellRead(edges[i])
    ensures var a := Added(UnderEdges(None), Views(AllEdgeLines(edges)));
            && (a.faulty <==> AnyFault(edges)) && (!a.faulty ==> a.edges == AllRewritten(edges))
    decreases |edges|
  {
    hide EdgeLines, CoreRun, CoreFlush, Added, WellRead, Settles, ViewOf, Rewritten;
    if edges == [] {
      NoViewsOf();
      AddedNothing(None);
    } else {
      var e, more := edges[0], edges[1..];
      assert WellRead(edges[0]);
      var first, rest := Views(EdgeLines(e)), Views(AllEdgeLines(more));
      LinesComeTo(more);
      FirstComesTo(e, more);
      AnyFaultHead(edges);
    }
  }

  lemma AnyFaultHead(edges: seq<Edge>)
    requires edges != []
    ensures AnyFault(edges) <==> Rewritten(edges[0]).faulty || AnyFault(edges[1..])
  {
    hide Rewritten;
    if i :| 0 <= i < |edges[1..]| && Rewritten(edges[1..][i]).faulty {
      assert edges[i + 1] == edges[1..][i];
    }
    if i :| 0 < i < |edges| && Rewritten(edges[i]).faulty {
      assert edges[i] == edges[1..][i - 1];
    }
  }

  lemma {:induction false} FirstComesTo(e: Edge, more: seq<Edge>)
    requires WellRead(e) && forall i | 0 <= i < |more| :: WellRead(more[i])
    ensures var a, b := Added(UnderEdges(None), Views(EdgeLines(e) + AllEdgeLines(more))), Added(UnderEdges(None), Views(AllEdgeLines(more)));
            && (a.faulty <==> Rewritten(e).faulty || b.faulty) && (!a.faulty ==> a.edges == Rewritten(e).edges + b.edges)
  {
    hide EdgeLines, CoreRun, CoreFlush, WellRead, Settles, ViewOf, CoreStep;
    var first, rest := Views(EdgeLines(e)), Views(AllEdgeLines(more));
    ViewsJoin(EdgeLines(e), AllEdgeLines(more));
    EdgeIndented(e);
    IndentedIsLoose(EdgeLines(e));
    var c := Core([], [], false, UnderEdges(None));
    RunConcat(c, first, rest);
    LooseStaysUnder(c, first);
    var d := CoreRun(c, first);
    NextSettles(more);
    SettledBefore(d, rest);
    FlushKeepsUnder(d);
    RunAdds(CoreFlush(d), rest);
  }

  lemma NextSettles(more: seq<Edge>)
    requires forall i | 0 <= i < |more| :: WellRead(more[i])
    ensures Views(AllEdgeLines(more)) == [] || Settles(Views(AllEdgeLines(more))[0])
  {
    hide EdgeLines, WellRead, Settles, ViewOf;
    if more != [] {
      assert WellRead(more[0]);
      FirstLineSettles(more[0]);
      assert AllEdgeLines(more)[0] == EdgeLines(more[0])[0];
    } else {
      NoViewsOf();
    }
  }
}
