/** Building the index of a whole corpus at once (`lib/kernel/ranker.js`). */
module RankerBuild {
  import opened Common
  import opened RankerMath
  import opened Ranker
  import opened RankerIndex

  /** The filled part of every list: what its cursor has passed. */
  function Filled(postings: map<Term, Posting>, cursor: map<Term, nat>): map<Term, Posting>
    requires cursor.Keys == postings.Keys
    requires forall t | t in postings :: cursor[t] <= |postings[t].docs| == |postings[t].w|
  {
    map t | t in postings && cursor[t] > 0 :: Posting(postings[t].docs[..cursor[t]], postings[t].w[..cursor[t]])
  }

  /** Writing at the cursor and moving it on is a push onto the filled part. */
  lemma WriteIsPush(postings: map<Term, Posting>, cursor: map<Term, nat>, t: Term, i: nat, x: real)
    requires cursor.Keys == postings.Keys && t in postings
    requires forall u | u in postings :: cursor[u] <= |postings[u].docs| == |postings[u].w|
    requires cursor[t] < |postings[t].docs|
    ensures var k, p := cursor[t], postings[t];
            var postings' := postings[t := Posting(p.docs[k := i], p.w[k := x])];
            && (forall u | u in postings' :: cursor[t := k + 1][u] <= |postings'[u].docs| == |postings'[u].w|)
            && Filled(postings', cursor[t := k + 1]) == Push(Filled(postings, cursor), t, i, x)
  {
    var k, p := cursor[t], postings[t];
    assert p.docs[k := i][..k + 1] == p.docs[..k] + [i];
    assert p.w[k := x][..k + 1] == p.w[..k] + [x];
    var filled := Filled(postings, cursor);
    var filled' := Filled(postings[t := Posting(p.docs[k := i], p.w[k := x])], cursor[t := k + 1]);
    var pushed := Push(filled, t, i, x);
    assert pushed[t] == Posting(p.docs[..k] + [i], p.w[..k] + [x]) == filled'[t] by {
      if k == 0 {
        assert p.docs[..0] == [] && p.w[..0] == [];
      }
    }
    forall u | u != t
      ensures u in filled' <==> u in filled
      ensures u in filled' ==> filled'[u] == filled[u]
    {
    }
    assert pushed == filled[t := pushed[t]];
  }

  /** Every list has been given exactly as many places as documents will take. */
  ghost predicate Sized(postings: map<Term, Posting>, cursor: map<Term, nat>, all: seq<set<Term>>, done: seq<set<Term>>) {
    && cursor.Keys == postings.Keys
    && (forall t :: t in postings <==> DocsWith(all, t) > 0)
    && (forall t | t in postings :: |postings[t].docs| == |postings[t].w| == DocsWith(all, t))
    && (forall t | t in postings :: cursor[t] == DocsWith(done, t) <= DocsWith(all, t))
  }

  lemma {:induction false} DocsWithPrefix(sets: seq<set<Term>>, i: nat, t: Term)
    requires i <= |sets|
    ensures DocsWith(sets[..i], t) <= DocsWith(sets, t)
  {
    if i < |sets| {
      DocsWithPrefix(sets[..|sets| - 1], i, t);
      assert sets[..|sets| - 1][..i] == sets[..i];
    } else {
      assert sets[..i] == sets;
    }
  }

  /** The document being filled still has a place in the list of each of its terms. */
  lemma PlaceIsLeft(all: seq<set<Term>>, i: nat, partial: set<Term>, t: Term)
    requires i < |all| && t in all[i] && t !in partial && partial <= all[i]
    ensures DocsWith(all[..i] + [partial], t) < DocsWith(all, t)
    ensures forall u :: DocsWith(all[..i] + [partial + {t}], u)
                     == DocsWith(all[..i] + [partial], u) + if u == t then 1 else 0
  {
    assert (all[..i] + [partial])[..i] == all[..i];
    assert all[..i + 1][..i] == all[..i];
    DocsWithPrefix(all, i + 1, t);
    forall u
      ensures DocsWith(all[..i] + [partial + {t}], u) == DocsWith(all[..i] + [partial], u) + if u == t then 1 else 0
    {
      assert (all[..i] + [partial + {t}])[..i] == all[..i];
    }
  }

  lemma SizedStep(postings: map<Term, Posting>, cursor: map<Term, nat>, all: seq<set<Term>>, i: nat,
                  partial: set<Term>, t: Term, x: real)
    requires i < |all| && t in all[i] && t !in partial && partial <= all[i]
    requires Sized(postings, cursor, all, all[..i] + [partial])
    ensures t in postings && cursor[t] < |postings[t].docs| == |postings[t].w|
    ensures var k, p := cursor[t], postings[t];
            Sized(postings[t := Posting(p.docs[k := i], p.w[k := x])], cursor[t := k + 1], all,
                  all[..i] + [partial + {t}])
  {
    hide DocsWith;
    DocsWithFinds(all, i, t);
    PlaceIsLeft(all, i, partial, t);
    var done, done' := all[..i] + [partial], all[..i] + [partial + {t}];
    var k, p := cursor[t], postings[t];
    var postings', cursor' := postings[t := Posting(p.docs[k := i], p.w[k := x])], cursor[t := k + 1];
    forall u | u in postings'
      ensures cursor'[u] == DocsWith(done', u) <= DocsWith(all, u)
    {
      assert DocsWith(done', u) == DocsWith(done, u) + if u == t then 1 else 0;
    }
  }

  lemma NextDocument(postings: map<Term, Posting>, cursor: map<Term, nat>, all: seq<set<Term>>, i: nat)
    requires i < |all| && Sized(postings, cursor, all, all[..i])
    ensures Sized(postings, cursor, all, all[..i] + [{}])
  {
    assert (all[..i] + [{}])[..i] == all[..i];
  }

  lemma AllFilled(postings: map<Term, Posting>, cursor: map<Term, nat>, all: seq<set<Term>>)
    requires Sized(postings, cursor, all, all)
    ensures Filled(postings, cursor) == postings
  {
    forall t | t in postings
      ensures cursor[t] > 0
      ensures Posting(postings[t].docs[..cursor[t]], postings[t].w[..cursor[t]]) == postings[t]
    {
      assert DocsWith(all, t) > 0;
    }
  }

  /** Count every term of every document. */
  method CountDocs(nodes: seq<Node>) returns (df: map<Term, nat>)
    ensures DfMatches(df, SetsOf(nodes))
  {
    hide DfMatches;
    df := map[];
    NothingCounted();
    assert SetsOf(nodes[..0]) == [];
    for i := 0 to |nodes|
      invariant DfMatches(df, SetsOf(nodes[..i]))
    {
      var terms := TermsOf(nodes[i].tokens);
      ghost var s: set<Term> := {};
      ghost var front := SetsOf(nodes[..i]);
      EmptySlotMatches(df, front);
      for j := 0 to |terms|
        invariant forall t :: t in s <==> t in terms[..j]
        invariant DfMatches(df, front + [s])
      {
        var t := terms[j];
        assert terms[..j + 1] == terms[..j] + [t];
        CountedMatches(df, front + [s], i, t);
        assert (front + [s])[i := s + {t}] == front + [s + {t}];
        df := df[t := (if t in df then df[t] else 0) + 1];
        s := s + {t};
      }
      assert terms[..|terms|] == terms;
      assert s == TermSet(nodes[i]);
      assert SetsOf(nodes[..i + 1]) == front + [s];
    }
    assert nodes[..|nodes|] == nodes;
  }

  lemma NothingCounted()
    ensures DfMatches(map[], [])
  {
  }

  function Zeros(df: map<Term, nat>): map<Term, nat> {
    map t | t in df :: 0
  }

  lemma FreshLists(df: map<Term, nat>, all: seq<set<Term>>, postings: map<Term, Posting>, cursor: map<Term, nat>)
    requires DfMatches(df, all)
    requires postings == map t | t in df :: Posting(seq(df[t], _ => 0), seq(df[t], _ => 0.0))
    requires cursor == Zeros(df)
    ensures Filling(postings, cursor, all, all[..0], [])
  {
    assert all[..0] == [];
    assert Filled(postings, cursor) == map[];
  }

  lemma LastSlotMoves(docIndex: map<Id, nat>, nodes: seq<Node>, i: nat)
    requires i < |nodes| && SlotsMatch(docIndex, nodes[..i])
    ensures SlotsMatch(docIndex[nodes[i].id := i], nodes[..i + 1])
  {
    hide SlotsMatch;
    assert nodes[..i + 1] == nodes[..i] + [nodes[i]];
    NewIdNewSlot(docIndex, nodes[..i], nodes[i]);
  }

  /** The lists while documents are posted: sized for all of them, filled with the done ones. */
  ghost predicate Filling(postings: map<Term, Posting>, cursor: map<Term, nat>, all: seq<set<Term>>,
                          done: seq<set<Term>>, weights: seq<Vector>) {
    && Sized(postings, cursor, all, done)
    && cursor.Keys == postings.Keys
    && (forall t | t in postings :: cursor[t] <= |postings[t].docs| == |postings[t].w|)
    && PostingsMatch(Filled(postings, cursor), weights)
  }

  lemma FillStep(postings: map<Term, Posting>, cursor: map<Term, nat>, all: seq<set<Term>>, i: nat, partial: set<Term>,
                 weights: seq<Vector>, t: Term, x: real)
    requires i < |all| && t in all[i] && t !in partial && partial <= all[i]
    requires i < |weights| && t !in weights[i]
    requires Filling(postings, cursor, all, all[..i] + [partial], weights)
    ensures t in postings && t in cursor && cursor[t] < |postings[t].docs| == |postings[t].w|
    ensures var k, p := cursor[t], postings[t];
            Filling(postings[t := Posting(p.docs[k := i], p.w[k := x])], cursor[t := k + 1], all,
                    all[..i] + [partial + {t}], weights[i := weights[i][t := x]])
  {
    hide PostingsMatch, Filled, Sized, Push;
    SizedStep(postings, cursor, all, i, partial, t, x);
    WriteIsPush(postings, cursor, t, i, x);
    PushMatches(Filled(postings, cursor), weights, t, i, x);
  }

  lemma StartDocument(postings: map<Term, Posting>, cursor: map<Term, nat>, all: seq<set<Term>>, i: nat, weights: seq<Vector>)
    requires i < |all| && Filling(postings, cursor, all, all[..i], weights)
    ensures Filling(postings, cursor, all, all[..i] + [{}], weights + [map[]])
  {
    hide PostingsMatch, Filled, Sized;
    NextDocument(postings, cursor, all, i);
    AppendSlotMatches(Filled(postings, cursor), weights);
  }

  lemma FinishLists(postings: map<Term, Posting>, cursor: map<Term, nat>, all: seq<set<Term>>, weights: seq<Vector>)
    requires Filling(postings, cursor, all, all, weights)
    ensures PostingsMatch(postings, weights)
  {
    hide PostingsMatch, Filled, Sized;
    AllFilled(postings, cursor, all);
  }

  /** Post one document's vector at the cursors; the sum of squares it gathers on the way is
      returned. Every write lands inside its list. */
  method FillDocument(terms: seq<Term>, dv: Vector, i: nat, lists: map<Term, Posting>, at: map<Term, nat>,
                      ghost all: seq<set<Term>>, ghost weights: seq<Vector>)
    returns (nn: real, postings: map<Term, Posting>, cursor: map<Term, nat>)
    requires i < |all| && i == |weights| && Distinct(terms)
    requires forall t :: t in dv <==> t in terms
    requires forall t :: t in all[i] <==> t in terms
    requires Filling(lists, at, all, all[..i], weights)
    ensures nn == Square(terms, dv)
    ensures Filling(postings, cursor, all, all[..i + 1], weights + [dv])
  {
    hide Filling, Times;
    nn, postings, cursor := 0.0, lists, at;
    ghost var s: set<Term> := {};
    ghost var v := weights + [map[]];
    StartDocument(postings, cursor, all, i, weights);
    assert Restrict(dv, terms[..0]) == map[];
    for j := 0 to |terms|
      invariant nn == Dot(terms[..j], dv, dv)
      invariant forall t :: t in s <==> t in terms[..j]
      invariant v == weights + [Restrict(dv, terms[..j])]
      invariant Filling(postings, cursor, all, all[..i] + [s], v)
    {
      var t := terms[j];
      assert t in terms;
      var x := dv[t];
      assert terms[..j + 1] == terms[..j] + [t] && terms[..j + 1][..j] == terms[..j];
      RestrictStep(dv, terms, j);
      FillStep(postings, cursor, all, i, s, v, t, x);
      nn := nn + Times(x, x);
      var p, k := postings[t], cursor[t];
      cursor := cursor[t := k + 1];
      postings := postings[t := Posting(p.docs[k := i], p.w[k := x])];
      s := s + {t};
      v := v[i := v[i][t := x]];
    }
    assert terms[..|terms|] == terms;
    assert Restrict(dv, terms) == dv;
    assert s == all[i];
    assert all[..i + 1] == all[..i] + [s];
  }

  /** Every document weighed under the index's own counts. */
  function WeightsUnder(m: Maths, df: map<Term, nat>, n: nat, nodes: seq<Node>): (r: seq<Vector>)
    ensures |r| == |nodes| && forall i | 0 <= i < |nodes| :: r[i] == Vec(m, df, n, nodes[i].tokens)
  {
    seq(|nodes|, i requires 0 <= i < |nodes| => Vec(m, df, n, nodes[i].tokens))
  }

  /** The whole index: it indexes its corpus, each document weighed under the corpus's own counts. */
  method BuildIndex(m: Maths, nodes: seq<Node>) returns (index: Index)
    requires Lawful(m)
    ensures Indexes(m, index, nodes, WeightsUnder(m, index.df, index.n, nodes))
  {
    hide DfMatches, PostingsMatch, SlotsMatch, DocSound, Lawful, AtMost, Filling, Vec, Square;
    var df := CountDocs(nodes);
    var n := |nodes|;
    ghost var all := SetsOf(nodes);
    FrequencyIsBounded(df, all);
    var postings := map t | t in df :: Posting(seq(df[t], _ => 0), seq(df[t], _ => 0.0));
    var cursor := Zeros(df);
    FreshLists(df, all, postings, cursor);
    var docIndex: map<Id, nat> := map[];
    NoSlots(nodes);
    var docs: seq<Doc> := [];
    ghost var weights: seq<Vector> := [];
    for i := 0 to |nodes|
      invariant |docs| == |weights| == i
      invariant Filling(postings, cursor, all, all[..i], weights)
      invariant SlotsMatch(docIndex, nodes[..i])
      invariant forall k | 0 <= k < i :: DocSound(m, docs[k], nodes[k], weights[k])
      invariant forall k | 0 <= k < i :: weights[k] == Vec(m, df, n, nodes[k].tokens)
    {
      var node := nodes[i];
      LastSlotMoves(docIndex, nodes, i);
      docIndex := docIndex[node.id := i];
      var dv := Vec(m, df, n, node.tokens);
      var nn;
      nn, postings, cursor := FillDocument(TermsOf(node.tokens), dv, i, postings, cursor, all, weights);
      var doc := Doc(node.id, m.sqrt(nn));
      NewDocIsSound(m, df, n, doc, node);
      docs := docs + [doc];
      weights := weights + [dv];
    }
    assert all[..|nodes|] == all && nodes[..|nodes|] == nodes;
    FinishLists(postings, cursor, all, weights);
    assert weights == WeightsUnder(m, df, n, nodes);
    index := Index(docs, df, n, postings, docIndex);
  }

  lemma NoSlots(nodes: seq<Node>)
    ensures SlotsMatch(map[], nodes[..0])
  {
  }

  lemma TableMirrors(m: Maths, index: Index, nodes: seq<Node>, weights: seq<Vector>, table: map<Id, Node>)
    requires Indexes(m, index, nodes, weights)
    requires table.Keys == set node | node in nodes :: node.id
    requires forall node | node in nodes :: table[node.id] == node
    ensures Mirrors(table, index.docIndex, nodes)
  {
    hide DfMatches, PostingsMatch, DocSound;
    forall id | id in index.docIndex
      ensures id in table && index.docIndex[id] < |nodes| && table[id] == nodes[index.docIndex[id]]
    {
      SlotIsLast(index.docIndex, nodes, id);
      assert nodes[index.docIndex[id]] in nodes;
    }
    forall node | node in nodes
      ensures node.id in index.docIndex
    {
    }
    assert table.Keys == index.docIndex.Keys;
  }

  /** After any run of writes the patched index and one built afresh agree on the counts, the slots
      and the membership of every list. */
  method PatchedAgreesWithRebuilt(m: Maths, nodes: seq<Node>, table: map<Id, Node>, writes: seq<Node>)
    returns (patched: RankIndex, rebuilt: Index)
    requires Lawful(m)
    requires table.Keys == set node | node in nodes :: node.id
    requires forall node | node in nodes :: table[node.id] == node
    ensures patched.Valid() && patched.maths == m && patched.nodes == AllWritten(nodes, writes)
    ensures patched.df == rebuilt.df && patched.n == rebuilt.n && patched.docIndex == rebuilt.docIndex
    ensures forall t :: Members(patched.postings, t) == Members(rebuilt.postings, t)
  {
    hide Indexes, Lawful, AllWritten, Members, Mirrors;
    var index := BuildIndex(m, nodes);
    ghost var vectors := WeightsUnder(m, index.df, index.n, nodes);
    patched := new RankIndex(m, index, nodes, vectors);
    TableMirrors(m, index, nodes, vectors, table);
    var _ := patched.ApplyWrites(table, writes);
    ghost var corpus := patched.nodes;
    rebuilt := BuildIndex(m, AllWritten(nodes, writes));
    ghost var rebuiltVectors := WeightsUnder(m, rebuilt.df, rebuilt.n, corpus);
    SameCorpusSameIndex(m, patched.Snapshot(), rebuilt, corpus, patched.weights, rebuiltVectors);
  }
}
