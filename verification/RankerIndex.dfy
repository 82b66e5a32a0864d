/** The index as the program holds it: patched in place by one write at a time, and scored
    (`lib/kernel/ranker.js`). */
module RankerIndex {
  import opened Common
  import opened RankerMath
  import opened Ranker

  /** The corpus after a write: the last slot of the id is reused, a new id is appended. */
  function Written(nodes: seq<Node>, node: Node, slot: Option<nat>): seq<Node>
    requires slot.Some? ==> slot.value < |nodes|
  {
    if slot.Some? then nodes[slot.value := node] else nodes + [node]
  }

  function Restrict(v: Vector, ts: seq<Term>): Vector {
    map t | t in v && t in ts :: v[t]
  }

  lemma RestrictStep(v: Vector, ts: seq<Term>, j: nat)
    requires j < |ts| && Distinct(ts) && ts[j] in v
    ensures ts[j] !in Restrict(v, ts[..j])
    ensures Restrict(v, ts[..j + 1]) == Restrict(v, ts[..j])[ts[j] := v[ts[j]]]
  {
    assert ts[..j + 1] == ts[..j] + [ts[j]];
  }

  // ---------- one document's slot, term by term ----------

  lemma TermLeaves(terms: seq<Term>, j: nat)
    requires j < |terms| && Distinct(terms)
    ensures terms[j] in terms[j..] && terms[j] !in terms[j + 1..]
    ensures forall t :: t in terms[j + 1..] <==> t in terms[j..] && t != terms[j]
  {
    assert terms[j..] == [terms[j]] + terms[j + 1..];
  }

  lemma UncountedAt(df: map<Term, nat>, sets: seq<set<Term>>, idx: nat, held: set<Term>, t: Term)
    requires idx < |sets| && DfMatches(df, sets[idx := held]) && t in held
    ensures t in df && df[t] > 0
    ensures (if df[t] - 1 <= 0 then df - {t} else df[t := df[t] - 1]) == Uncounted(df, t)
    ensures DfMatches(Uncounted(df, t), sets[idx := held - {t}])
  {
    hide DfMatches;
    UncountedMatches(df, sets[idx := held], idx, t);
    assert sets[idx := held][idx := held - {t}] == sets[idx := held - {t}];
  }

  lemma CountedAt(df: map<Term, nat>, sets: seq<set<Term>>, idx: nat, held: set<Term>, t: Term)
    requires idx < |sets| && DfMatches(df, sets[idx := held]) && t !in held
    ensures DfMatches(df[t := (if t in df then df[t] else 0) + 1], sets[idx := held + {t}])
  {
    hide DfMatches;
    CountedMatches(df, sets[idx := held], idx, t);
    assert sets[idx := held][idx := held + {t}] == sets[idx := held + {t}];
  }

  lemma RemoveAt(postings: map<Term, Posting>, vectors: seq<Vector>, idx: nat, vec: Vector, t: Term)
    requires idx < |vectors| && PostingsMatch(postings, vectors[idx := vec])
    ensures t in postings ==> |postings[t].docs| == |postings[t].w|
    ensures PostingsMatch(Remove(postings, t, idx), vectors[idx := vec - {t}])
  {
    hide PostingsMatch, Remove;
    RemoveMatches(postings, vectors[idx := vec], t, idx);
    assert vectors[idx := vec][idx := vec - {t}] == vectors[idx := vec - {t}];
  }

  lemma PostStep(postings: map<Term, Posting>, vectors: seq<Vector>, idx: nat, dv: Vector, terms: seq<Term>, j: nat)
    requires idx < |vectors| && j < |terms| && Distinct(terms) && terms[j] in dv
    requires PostingsMatch(postings, vectors[idx := Restrict(dv, terms[..j])])
    ensures PostingsMatch(Push(postings, terms[j], idx, dv[terms[j]]), vectors[idx := Restrict(dv, terms[..j + 1])])
    ensures Dot(terms[..j + 1], dv, dv) == Dot(terms[..j], dv, dv) + Times(dv[terms[j]], dv[terms[j]])
  {
    hide PostingsMatch, Push, Restrict, Times;
    var before, after := Restrict(dv, terms[..j]), Restrict(dv, terms[..j + 1]);
    RestrictStep(dv, terms, j);
    PushMatches(postings, vectors[idx := before], terms[j], idx, dv[terms[j]]);
    assert vectors[idx := before][idx := after] == vectors[idx := after];
    assert terms[..j + 1][..j] == terms[..j];
  }

  lemma PostNothing(dv: Vector, terms: seq<Term>, vectors: seq<Vector>, idx: nat)
    requires idx < |vectors| && vectors[idx] == map[]
    ensures vectors[idx := Restrict(dv, terms[..0])] == vectors
    ensures Dot(terms[..0], dv, dv) == 0.0
  {
    assert Restrict(dv, terms[..0]) == map[];
  }

  lemma PostAll(dv: Vector, terms: seq<Term>)
    requires forall t :: t in dv <==> t in terms
    ensures terms[..|terms|] == terms && Restrict(dv, terms) == dv
  {
  }

  /** One document's similarity to a query. */
  function Cosine(m: Maths, qs: seq<Term>, x: Vector, norm: real, y: Vector): real {
    var denom := Times(m.sqrt(Square(qs, x)), norm);
    if denom > 0.0 then Dot(qs, x, y) / denom else 0.0
  }

  /** Every document not excluded, in index order, with its own cosine. */
  function Candidates(m: Maths, qs: seq<Term>, x: Vector, docs: seq<Doc>, weights: seq<Vector>,
                      excluded: set<Id>): seq<Ranked>
    requires |docs| == |weights|
  {
    if docs == [] then []
    else
      var k := |docs| - 1;
      Candidates(m, qs, x, docs[..k], weights[..k], excluded)
      + if docs[k].id in excluded then [] else [Ranked(docs[k].id, Cosine(m, qs, x, docs[k].norm, weights[k]))]
  }

  class RankIndex {
    const maths: Maths
    var docs: seq<Doc>
    var df: map<Term, nat>
    var n: nat
    var postings: map<Term, Posting>
    var docIndex: map<Id, nat>

    /** The corpus the index stands for, and each document's posted weights. */
    ghost var nodes: seq<Node>
    ghost var weights: seq<Vector>

    ghost function Snapshot(): Index
      reads this
    {
      Index(docs, df, n, postings, docIndex)
    }

    ghost predicate Valid()
      reads this
    {
      Lawful(maths) && Indexes(maths, Snapshot(), nodes, weights)
    }

    constructor (m: Maths, index: Index, ghost corpus: seq<Node>, ghost vectors: seq<Vector>)
      requires Lawful(m) && Indexes(m, index, corpus, vectors)
      ensures Valid() && maths == m && Snapshot() == index && nodes == corpus && weights == vectors
    {
      maths := m;
      docs, df, n, postings, docIndex := index.docs, index.df, index.n, index.postings, index.docIndex;
      nodes, weights := corpus, vectors;
    }

    method PushPosting(t: Term, idx: nat, w: real)
      modifies `postings
      ensures postings == Push(old(postings), t, idx, w)
    {
      if t !in postings {
        postings := postings[t := Posting([idx], [w])];
        return;
      }
      var p := postings[t];
      postings := postings[t := Posting(p.docs + [idx], p.w + [w])];
    }

    method RemovePosting(t: Term, idx: nat)
      requires t in postings ==> |postings[t].docs| == |postings[t].w|
      modifies `postings
      ensures postings == Remove(old(postings), t, idx)
    {
      if t !in postings {
        return;
      }
      var p := postings[t];
      var nd, nw := [], [];
      for k := 0 to |p.docs|
        invariant Posting(nd, nw) == Without(p, idx, k)
      {
        if p.docs[k] != idx {
          nd := nd + [p.docs[k]];
          nw := nw + [p.w[k]];
        }
      }
      if |nd| == 0 {
        postings := postings - {t};
      } else {
        postings := postings[t := Posting(nd, nw)];
      }
    }

    /** Take a document's old terms out of `df` and the lists. */
    method DropTerms(tokens: seq<Term>, idx: nat, ghost sets: seq<set<Term>>, ghost vectors: seq<Vector>)
      requires idx < |sets| == |vectors|
      requires DfMatches(df, sets) && PostingsMatch(postings, vectors)
      requires forall t :: t in sets[idx] <==> t in tokens
      requires forall t :: t in vectors[idx] <==> t in tokens
      modifies `df, `postings
      ensures DfMatches(df, sets[idx := {}]) && PostingsMatch(postings, vectors[idx := map[]])
    {
      hide DfMatches, PostingsMatch, Remove, Uncounted;
      var terms := TermsOf(tokens);
      ghost var held, vec := sets[idx], vectors[idx];
      assert sets[idx := held] == sets && vectors[idx := vec] == vectors;
      for j := 0 to |terms|
        invariant forall t :: t in held <==> t in terms[j..]
        invariant forall t :: t in vec <==> t in terms[j..]
        invariant DfMatches(df, sets[idx := held]) && PostingsMatch(postings, vectors[idx := vec])
      {
        var t := terms[j];
        TermLeaves(terms, j);
        UncountedAt(df, sets, idx, held, t);
        RemoveAt(postings, vectors, idx, vec, t);
        if t in df {
          var c := df[t] - 1;
          df := if c <= 0 then df - {t} else df[t := c];
        }
        RemovePosting(t, idx);
        held := held - {t};
        vec := vec - {t};
      }
      assert held == {} && vec == map[];
    }

    /** Count a document's new terms into `df`. */
    method CountTerms(tokens: seq<Term>, idx: nat, ghost sets: seq<set<Term>>)
      requires idx < |sets| && sets[idx] == {} && DfMatches(df, sets)
      modifies `df
      ensures DfMatches(df, sets[idx := set t | t in tokens])
    {
      hide DfMatches;
      var terms := TermsOf(tokens);
      ghost var held: set<Term> := {};
      assert sets[idx := held] == sets;
      for j := 0 to |terms|
        invariant forall t :: t in held <==> t in terms[..j]
        invariant DfMatches(df, sets[idx := held])
      {
        var t := terms[j];
        assert terms[..j + 1] == terms[..j] + [t];
        CountedAt(df, sets, idx, held, t);
        df := df[t := (if t in df then df[t] else 0) + 1];
        held := held + {t};
      }
      assert terms[..|terms|] == terms;
      assert held == set t | t in tokens;
    }

    /** Weigh a document under the current counts and post every term of it. */
    method PostVector(tokens: seq<Term>, idx: nat, ghost vectors: seq<Vector>) returns (norm: real)
      requires idx < |vectors| && vectors[idx] == map[] && PostingsMatch(postings, vectors)
      modifies `postings
      ensures PostingsMatch(postings, vectors[idx := Vec(maths, df, n, tokens)])
      ensures norm == maths.sqrt(Square(TermsOf(tokens), Vec(maths, df, n, tokens)))
    {
      hide PostingsMatch, Push, Vec, Dot, Times, Restrict;
      var terms := TermsOf(tokens);
      var dv := Vec(maths, df, n, tokens);
      var nn := 0.0;
      PostNothing(dv, terms, vectors, idx);
      for j := 0 to |terms|
        invariant PostingsMatch(postings, vectors[idx := Restrict(dv, terms[..j])])
        invariant nn == Dot(terms[..j], dv, dv)
      {
        var t := terms[j];
        assert t in tokens;
        var x := dv[t];
        PostStep(postings, vectors, idx, dv, terms, j);
        nn := nn + Times(x, x);
        PushPosting(t, idx, x);
      }
      PostAll(dv, terms);
      norm := maths.sqrt(nn);
    }

    /** Patch the index for one created or updated node. The changed document is weighed under
        the counts as they now stand; every other document keeps its weights. */
    method IndexNode(node: Node, previous: Option<Node>)
      requires Valid()
      requires previous.Some? && node.id in docIndex ==>
                 docIndex[node.id] < |nodes| && previous.value.tokens == nodes[docIndex[node.id]].tokens
      modifies this
      ensures Valid()
      ensures var slot := if previous.Some? && node.id in old(docIndex) then Some(old(docIndex)[node.id]) else None;
              && (slot.Some? ==> slot.value < old(|nodes|))
              && nodes == Written(old(nodes), node, slot)
              && weights == (if slot.Some? then old(weights)[slot.value := Vec(maths, df, n, node.tokens)]
                             else old(weights) + [Vec(maths, df, n, node.tokens)])
              && docIndex == (if slot.Some? then old(docIndex) else old(docIndex)[node.id := old(|nodes|)])
    {
      hide Indexes, Lawful, Vec;
      SlotsOf(maths, Snapshot(), nodes, weights);
      if previous.Some? && node.id in docIndex {
        SlotIsLast(docIndex, nodes, node.id);
        UpdateDoc(node, previous.value.tokens, docIndex[node.id]);
      } else {
        AppendDoc(node);
      }
    }

    /** Reuse the slot: the old terms out, the new terms in. */
    method UpdateDoc(node: Node, oldTokens: seq<Term>, idx: nat)
      requires Valid() && LastSlot(nodes, node.id, idx) && oldTokens == nodes[idx].tokens
      modifies this
      ensures Valid() && docIndex == old(docIndex)
      ensures nodes == old(nodes)[idx := node]
      ensures idx < old(|weights|) && weights == old(weights)[idx := Vec(maths, df, n, node.tokens)]
    {
      hide DfMatches, PostingsMatch, SlotsMatch, DocSound, Vec, AtMost, Lawful, SetsOf;
      ghost var sets := SetsOf(nodes);
      assert DocSound(maths, docs[idx], nodes[idx], weights[idx]);
      HolderTerms(maths, docs[idx], nodes[idx], weights[idx]);
      DropTerms(oldTokens, idx, sets, weights);
      ghost var emptied, cleared := sets[idx := {}], weights[idx := map[]];
      CountTerms(node.tokens, idx, emptied);
      var norm := PostVector(node.tokens, idx, cleared);
      docs := docs[idx := docs[idx].(norm := norm)];
      ghost var vec := Vec(maths, df, n, node.tokens);
      ReusedSlot(nodes, weights, node, idx, vec);
      FrequencyIsBounded(df, SetsOf(nodes[idx := node]));
      SameIdSameSlots(docIndex, nodes, node, idx);
      NewDocIsSound(maths, df, n, docs[idx], node);
      nodes, weights := nodes[idx := node], weights[idx := vec];
    }

    /** A new slot at the end. */
    method AppendDoc(node: Node)
      requires Valid()
      modifies this
      ensures Valid() && docIndex == old(docIndex)[node.id := old(|nodes|)]
      ensures nodes == old(nodes) + [node]
      ensures weights == old(weights) + [Vec(maths, df, n, node.tokens)]
    {
      hide DfMatches, PostingsMatch, SlotsMatch, DocSound, Vec, AtMost, Lawful, SetsOf;
      var i := |docs|;
      ghost var sets := SetsOf(nodes) + [{}];
      EmptySlotMatches(df, SetsOf(nodes));
      AppendSlotMatches(postings, weights);
      CountTerms(node.tokens, i, sets);
      n := n + 1;
      var norm := PostVector(node.tokens, i, weights + [map[]]);
      docs := docs + [Doc(node.id, norm)];
      NewIdNewSlot(docIndex, nodes, node);
      docIndex := docIndex[node.id := i];
      ghost var vec := Vec(maths, df, n, node.tokens);
      AppendedSlot(nodes, weights, node, vec);
      FrequencyIsBounded(df, SetsOf(nodes + [node]));
      NewDocIsSound(maths, df, n, docs[i], node);
      nodes, weights := nodes + [node], weights + [vec];
    }

    /** A run of writes as the graph applies them: each is told of the version it replaces. */
    method ApplyWrites(graph: map<Id, Node>, writes: seq<Node>) returns (table: map<Id, Node>)
      requires Valid() && Mirrors(graph, docIndex, nodes)
      modifies this
      ensures Valid() && Mirrors(table, docIndex, nodes)
      ensures nodes == AllWritten(old(nodes), writes)
    {
      hide Indexes, Lawful, Mirrors, AllWritten, LastSlotOf;
      table := graph;
      ghost var start := nodes;
      NoWrites(nodes, writes);
      for i := 0 to |writes|
        invariant Valid() && Mirrors(table, docIndex, nodes)
        invariant nodes == AllWritten(start, writes[..i])
      {
        var node := writes[i];
        ghost var before, index, mirror := nodes, docIndex, table;
        SlotsOf(maths, Snapshot(), nodes, weights);
        MirroredVersion(docIndex, nodes, table, node);
        OneMoreWrite(start, writes, i);
        var previous := if node.id in table then Some(table[node.id]) else None;
        table := table[node.id := node];
        IndexNode(node, previous);
        MirrorsAfter(mirror, index, before, node);
      }
      assert writes[..|writes|] == writes;
    }

    /** Cosine against every document, most similar first, ties in index order. */
    method RankAgainst(tokens: seq<Term>, excluded: set<Id>) returns (out: seq<Ranked>)
      requires Valid()
      ensures |docs| == |weights|
      ensures out == SortDescending(Candidates(maths, TermsOf(tokens), Vec(maths, df, n, tokens), docs, weights, excluded))
      ensures forall r | r in out :: 0.0 <= r.sim <= 1.0
    {
      hide DfMatches, PostingsMatch, SlotsMatch, DocSound, Vec, Lawful, SortDescending, PostingSound, Dot;
      var qs := TermsOf(tokens);
      var x := Vec(maths, df, n, tokens);
      var queryNorm := QueryNorm(qs, x);
      var scores := Scores(qs, x);
      var list: seq<Ranked> := [];
      for i := 0 to |docs|
        invariant list == Candidates(maths, qs, x, docs[..i], weights[..i], excluded)
      {
        assert docs[..i + 1][..i] == docs[..i] && weights[..i + 1][..i] == weights[..i];
        if docs[i].id !in excluded {
          var denom := Times(queryNorm, docs[i].norm);
          list := list + [Ranked(docs[i].id, if denom > 0.0 then scores[i] / denom else 0.0)];
        }
      }
      assert docs[..|docs|] == docs && weights[..|weights|] == weights;
      out := SortDescending(list);
      FrequencyIsBounded(df, SetsOf(nodes));
      CandidatesInUnit(maths, tokens, df, n, docs, nodes, weights, excluded);
      SortKeepsMembers(list);
    }

    method QueryNorm(qs: seq<Term>, x: Vector) returns (norm: real)
      requires forall t | t in qs :: t in x
      ensures norm == maths.sqrt(Square(qs, x))
    {
      var qn := 0.0;
      for j := 0 to |qs|
        invariant qn == Dot(qs[..j], x, x)
      {
        assert qs[..j + 1][..j] == qs[..j];
        qn := qn + Times(x[qs[j]], x[qs[j]]);
      }
      assert qs[..|qs|] == qs;
      norm := maths.sqrt(qn);
    }

    /** The dot products, gathered from the query's lists alone. */
    method Scores(qs: seq<Term>, x: Vector) returns (scores: array<real>)
      requires |docs| == |weights| && PostingsMatch(postings, weights)
      requires forall t | t in qs :: t in x
      ensures fresh(scores) && scores.Length == |docs|
      ensures forall i | 0 <= i < |docs| :: scores[i] == Dot(qs, x, weights[i])
    {
      hide PostingsMatch, Times, Dot;
      scores := new real[|docs|](_ => 0.0);
      NoTerms(x, weights);
      assert qs[..0] == [];
      for j := 0 to |qs|
        invariant forall i | 0 <= i < |docs| :: scores[i] == Dot(qs[..j], x, weights[i])
      {
        var t := qs[j];
        OneMoreTerm(qs, j, x, weights);
        if t in postings {
          AddPostings(t, x[t], scores);
        } else {
          NoHolders(postings, weights, t);
          TimesNothing(x[t]);
        }
      }
      assert qs[..|qs|] == qs;
    }

    /** One query term's pass over its list. */
    method AddPostings(t: Term, xt: real, scores: array<real>)
      requires t in postings && scores.Length == |weights| && PostingsMatch(postings, weights)
      modifies scores
      ensures forall i | 0 <= i < scores.Length :: scores[i] == old(scores[i]) + Times(xt, At(weights[i], t))
    {
      hide Times;
      var p := postings[t];
      assert PostingSound(p, t, weights);
      for k := 0 to |p.docs|
        invariant forall i | 0 <= i < scores.Length ::
          scores[i] == old(scores[i]) + if i in p.docs[..k] then Times(xt, At(weights[i], t)) else 0.0
      {
        assert p.docs[..k + 1] == p.docs[..k] + [p.docs[k]];
        assert p.docs[k] !in p.docs[..k];
        scores[p.docs[k]] := scores[p.docs[k]] + Times(xt, p.w[k]);
      }
      assert p.docs[..|p.docs|] == p.docs;
      forall i | 0 <= i < scores.Length && i !in p.docs
        ensures Times(xt, At(weights[i], t)) == 0.0
      {
        TimesNothing(xt);
      }
    }
  }

  lemma NoTerms(x: Vector, weights: seq<Vector>)
    ensures forall i | 0 <= i < |weights| :: Dot([], x, weights[i]) == 0.0
  {
  }

  lemma OneMoreTerm(qs: seq<Term>, j: nat, x: Vector, weights: seq<Vector>)
    requires j < |qs| && qs[j] in x
    ensures forall i | 0 <= i < |weights| ::
              Dot(qs[..j + 1], x, weights[i]) == Dot(qs[..j], x, weights[i]) + Times(x[qs[j]], At(weights[i], qs[j]))
  {
    assert qs[..j + 1][..j] == qs[..j];
  }

  lemma SortKeepsMembers(s: seq<Ranked>)
    ensures forall r | r in SortDescending(s) :: r in s
  {
    hide SortDescending;
    SortIsStable(s);
    forall r | r in SortDescending(s)
      ensures r in s
    {
      assert r in multiset(SortDescending(s));
    }
  }

  lemma TimesNothing(a: real)
    ensures Times(a, 0.0) == 0.0
  {
  }

  lemma NoHolders(postings: map<Term, Posting>, weights: seq<Vector>, t: Term)
    requires PostingsMatch(postings, weights) && t !in postings
    ensures forall i | 0 <= i < |weights| :: t !in weights[i]
  {
  }

  lemma {:induction false} CandidatesInUnit(m: Maths, tokens: seq<Term>, df: map<Term, nat>, n: nat, docs: seq<Doc>,
                                            nodes: seq<Node>, weights: seq<Vector>, excluded: set<Id>)
    requires Lawful(m) && AtMost(df, n) && |docs| == |nodes| == |weights|
    requires forall i | 0 <= i < |docs| :: DocSound(m, docs[i], nodes[i], weights[i])
    ensures forall r | r in Candidates(m, TermsOf(tokens), Vec(m, df, n, tokens), docs, weights, excluded) ::
              0.0 <= r.sim <= 1.0
  {
    hide DocSound, Vec, Lawful, AtMost, Cosine;
    if docs != [] {
      var k := |docs| - 1;
      CandidatesInUnit(m, tokens, df, n, docs[..k], nodes[..k], weights[..k], excluded);
      OneCosine(m, tokens, df, n, docs[k], nodes[k], weights[k]);
    }
  }

  /** A document's cosine lies in the unit interval. */
  lemma {:induction false} OneCosine(m: Maths, tokens: seq<Term>, df: map<Term, nat>, n: nat, doc: Doc, node: Node, y: Vector)
    requires Lawful(m) && AtMost(df, n) && DocSound(m, doc, node, y)
    ensures 0.0 <= Cosine(m, TermsOf(tokens), Vec(m, df, n, tokens), doc.norm, y) <= 1.0
  {
    hide Lawful, AtMost, Vec, Dot, Square;
    var qs, x, ds := TermsOf(tokens), Vec(m, df, n, tokens), TermsOf(node.tokens);
    VecIsNonnegative(m, df, n, tokens);
    CosineIsInUnit(m, qs, x, ds, y);
    var denom := Times(m.sqrt(Square(qs, x)), doc.norm);
    if denom > 0.0 {
      QuotientInUnit(Dot(qs, x, y), denom);
    }
  }

  // ---------- the pieces of a patch ----------

  lemma SlotIsLast(docIndex: map<Id, nat>, nodes: seq<Node>, id: Id)
    requires SlotsMatch(docIndex, nodes) && id in docIndex
    ensures LastSlot(nodes, id, docIndex[id])
  {
  }

  lemma HolderTerms(m: Maths, doc: Doc, node: Node, y: Vector)
    requires DocSound(m, doc, node, y)
    ensures doc.id == node.id && forall t :: t in y <==> t in node.tokens
  {
  }

  lemma {:induction false} NewDocIsSound(m: Maths, df: map<Term, nat>, n: nat, doc: Doc, node: Node)
    requires Lawful(m) && AtMost(df, n) && doc.id == node.id
    requires doc.norm == m.sqrt(Square(TermsOf(node.tokens), Vec(m, df, n, node.tokens)))
    ensures DocSound(m, doc, node, Vec(m, df, n, node.tokens))
  {
    hide Lawful, AtMost, Square;
    VecIsNonnegative(m, df, n, node.tokens);
  }

  lemma SameIdSameSlots(docIndex: map<Id, nat>, nodes: seq<Node>, node: Node, idx: nat)
    requires SlotsMatch(docIndex, nodes) && LastSlot(nodes, node.id, idx)
    ensures SlotsMatch(docIndex, nodes[idx := node])
  {
    var after := nodes[idx := node];
    assert forall i | 0 <= i < |nodes| :: after[i].id == nodes[i].id;
    forall id | id in docIndex
      ensures LastSlot(after, id, docIndex[id])
    {
      assert LastSlot(nodes, id, docIndex[id]);
    }
  }

  lemma NewIdNewSlot(docIndex: map<Id, nat>, nodes: seq<Node>, node: Node)
    requires SlotsMatch(docIndex, nodes)
    ensures SlotsMatch(docIndex[node.id := |nodes|], nodes + [node])
  {
    var after, index := nodes + [node], docIndex[node.id := |nodes|];
    forall id | id in index
      ensures LastSlot(after, id, index[id])
    {
      if id != node.id {
        assert LastSlot(nodes, id, docIndex[id]);
      }
    }
  }

  lemma AppendedSlot(nodes: seq<Node>, weights: seq<Vector>, node: Node, vec: Vector)
    requires |nodes| == |weights|
    ensures (SetsOf(nodes) + [{}])[|nodes| := set t | t in node.tokens] == SetsOf(nodes + [node])
    ensures (weights + [map[]])[|nodes| := vec] == weights + [vec]
  {
  }

  lemma ReusedSlot(nodes: seq<Node>, weights: seq<Vector>, node: Node, idx: nat, vec: Vector)
    requires idx < |nodes| == |weights|
    ensures SetsOf(nodes)[idx := {}][idx := set t | t in node.tokens] == SetsOf(nodes[idx := node])
    ensures weights[idx := map[]][idx := vec] == weights[idx := vec]
  {
  }

  // ---------- runs of writes ----------

  function LastSlotOf(nodes: seq<Node>, id: Id): (r: Option<nat>)
    ensures r.Some? ==> LastSlot(nodes, id, r.value)
    ensures r.None? ==> forall i | 0 <= i < |nodes| :: nodes[i].id != id
  {
    if nodes == [] then None
    else if nodes[|nodes| - 1].id == id then Some(|nodes| - 1)
    else LastSlotOf(nodes[..|nodes| - 1], id)
  }

  /** The corpus after a run of writes. */
  function AllWritten(nodes: seq<Node>, writes: seq<Node>): seq<Node> {
    if writes == [] then nodes
    else
      var before := AllWritten(nodes, writes[..|writes| - 1]);
      var node := writes[|writes| - 1];
      Written(before, node, LastSlotOf(before, node.id))
  }

  /** The graph's table holds the current version of every indexed node, and nothing else. */
  ghost predicate Mirrors(table: map<Id, Node>, docIndex: map<Id, nat>, nodes: seq<Node>) {
    && table.Keys == docIndex.Keys
    && forall id | id in docIndex :: docIndex[id] < |nodes| && table[id] == nodes[docIndex[id]]
  }

  lemma NoWrites(nodes: seq<Node>, writes: seq<Node>)
    ensures AllWritten(nodes, writes[..0]) == nodes
  {
  }

  lemma OneMoreWrite(nodes: seq<Node>, writes: seq<Node>, i: nat)
    requires i < |writes|
    ensures var before := AllWritten(nodes, writes[..i]);
            AllWritten(nodes, writes[..i + 1]) == Written(before, writes[i], LastSlotOf(before, writes[i].id))
  {
    assert writes[..i + 1][..i] == writes[..i];
  }

  lemma SlotsOf(m: Maths, index: Index, nodes: seq<Node>, weights: seq<Vector>)
    requires Indexes(m, index, nodes, weights)
    ensures SlotsMatch(index.docIndex, nodes)
  {
  }

  lemma {:induction false} MirroredVersion(docIndex: map<Id, nat>, nodes: seq<Node>, table: map<Id, Node>, node: Node)
    requires SlotsMatch(docIndex, nodes) && Mirrors(table, docIndex, nodes)
    ensures node.id in table <==> node.id in docIndex
    ensures node.id in table ==>
              docIndex[node.id] < |nodes| && table[node.id].tokens == nodes[docIndex[node.id]].tokens
    ensures LastSlotOf(nodes, node.id) == if node.id in table then Some(docIndex[node.id]) else None
  {
    hide LastSlotOf, LastSlot;
    var id := node.id;
    assert id in table.Keys <==> id in docIndex.Keys;
    if id in table {
      SlotIsLast(docIndex, nodes, id);
      OneLastSlot(nodes, id, docIndex[id]);
    } else if LastSlotOf(nodes, id).Some? {
      var i := LastSlotOf(nodes, id).value;
      HoldsItsId(nodes, id, i);
    }
  }

  lemma HoldsItsId(nodes: seq<Node>, id: Id, i: nat)
    requires LastSlot(nodes, id, i)
    ensures i < |nodes| && nodes[i].id == id
  {
  }

  lemma OneLastSlot(nodes: seq<Node>, id: Id, i: nat)
    requires LastSlot(nodes, id, i)
    ensures LastSlotOf(nodes, id) == Some(i)
  {
    hide LastSlotOf;
    assert nodes[i].id == id;
  }

  lemma MirrorsAfter(table: map<Id, Node>, docIndex: map<Id, nat>, nodes: seq<Node>, node: Node)
    requires SlotsMatch(docIndex, nodes) && Mirrors(table, docIndex, nodes)
    ensures node.id in docIndex ==>
              docIndex[node.id] < |nodes| && Mirrors(table[node.id := node], docIndex, nodes[docIndex[node.id] := node])
    ensures node.id !in docIndex ==>
              Mirrors(table[node.id := node], docIndex[node.id := |nodes|], nodes + [node])
  {
    var id := node.id;
    if id in docIndex {
      SlotIsLast(docIndex, nodes, id);
      forall other | other in docIndex && other != id
        ensures docIndex[other] != docIndex[id]
      {
        SlotIsLast(docIndex, nodes, other);
      }
    }
  }
}
